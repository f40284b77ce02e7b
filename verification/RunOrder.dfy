/** In which order threads deal with their targets, in every run of a squad of any size. */
module RunOrder {
  import opened Tree
  import opened TreeCover
  import opened TreeOrder
  import opened Squad

  /** From the point of view of thread t, thread x is dealt with before thread y. */
  ghost predicate Precedes(n: nat, t: nat, x: nat, y: nat)
    requires t < n
  {
    t < x && t < y && ComesBefore(NumSubthreads(n, t), x - t, y - t)
  }

  /** From coarse levels to fine ones, and within a level from near to far. */
  ghost predicate CoarseToFine(n: nat, t: nat, todo: seq<nat>)
    requires t < n
  {
    forall i, j :: 0 <= i < j < |todo| ==> Precedes(n, t, todo[i], todo[j])
  }

  /** Threads are woken and released from coarse to fine, and awaited, collected from, merged and joined in increasing order. */
  ghost predicate IsOrdered(n: nat, t: nat, pc: Pc)
    requires t < n
  {
    match pc
    case Notify(todo) => CoarseToFine(n, t, todo)
    case Give(_, todo) => CoarseToFine(n, t, todo)
    case Lower(_, todo) => CoarseToFine(n, t, todo)
    case Collect(_, todo) => Increasing(todo)
    case Take(_, todo) => Increasing(todo)
    case AwaitKids(todo) => Increasing(todo)
    case Merge(todo) => Increasing(todo)
    case Join(todo) => Increasing(todo)
    case _ => true
  }

  lemma TailsAreOrdered(n: nat, t: nat, todo: seq<nat>)
    requires t < n && todo != []
    ensures CoarseToFine(n, t, todo) ==> CoarseToFine(n, t, todo[1..])
    ensures Increasing(todo) ==> Increasing(todo[1..])
  {
    hide Precedes;
    var tail := todo[1..];
    assert forall i :: 0 <= i < |tail| ==> tail[i] == todo[i + 1];
    if CoarseToFine(n, t, todo) {
      forall i, j | 0 <= i < j < |tail| ensures Precedes(n, t, tail[i], tail[j]) {
        assert Precedes(n, t, todo[i + 1], todo[j + 1]);
      }
    }
  }

  lemma WalksAreOrdered(n: nat, c: nat, t: nat)
    requires t < n
    ensures Increasing(Up(n, c, t)) && CoarseToFine(n, t, Down(n, c, t))
    ensures CoarseToFine(n, t, [])
  {
    hide Down, Up, ComesBefore, NumSubthreads;
    WalkOrder(n, c, t);
    var d := Down(n, c, t);
    forall i, j | 0 <= i < j < |d| ensures Precedes(n, t, d[i], d[j]) {
      DownOrder(n, c, t, i, j);
    }
  }

  lemma CallWalksAreOrdered(s: State, i: nat)
    requires i < |s.th| && Enabled(s, i) && IsOrdered(|s.th|, i, s.th[i].pc)
    requires var pc := s.th[i].pc; pc.Parked? || pc.BeforeJoin? || pc.Notify? || pc.Execute?
    ensures IsOrdered(|s.th|, i, Own(s, i).pc)
  {
    hide Up, Down, CoarseToFine, Increasing, NumThreadsForTask, WakeCount;
    var n, pc := |s.th|, s.th[i].pc;
    if pc.Parked? || pc.BeforeJoin? {
      WalksAreOrdered(n, NumThreadsForTask(s), i);
    } else {
      var t := s.calls[s.th[i].task];
      WalksAreOrdered(n, t.concurrency, i);
      WalksAreOrdered(n, WakeCount(n, t), i);
      if pc.Notify? && pc.todo != [] {
        TailsAreOrdered(n, i, pc.todo);
      }
    }
  }

  lemma SyncIsOrdered(s: State, i: nat)
    requires i < |s.th| && Enabled(s, i) && IsOrdered(|s.th|, i, s.th[i].pc)
    requires var pc := s.th[i].pc; pc.Collect? || pc.Retract? || pc.Take? || pc.Give? || pc.Lower?
    ensures IsOrdered(|s.th|, i, Own(s, i).pc)
  {
    hide Up, Down, CoarseToFine, Increasing;
    var pc := s.th[i].pc;
    if pc.Collect? || pc.Retract? {
      WalksAreOrdered(|s.th|, s.calls[s.th[i].task].concurrency, i);
    } else if pc.todo != [] {
      TailsAreOrdered(|s.th|, i, pc.todo);
    }
  }

  lemma CompletionIsOrdered(s: State, i: nat)
    requires i < |s.th| && Enabled(s, i) && IsOrdered(|s.th|, i, s.th[i].pc)
    requires var pc := s.th[i].pc; pc.AwaitKids? || pc.Merge? || pc.Join?
    ensures IsOrdered(|s.th|, i, Own(s, i).pc)
  {
    hide CoarseToFine, Increasing;
    if s.th[i].pc.todo != [] {
      TailsAreOrdered(|s.th|, i, s.th[i].pc.todo);
    }
  }

  lemma OthersAreOrdered(s: State, i: nat)
    requires i < |s.th| && Enabled(s, i)
    requires var pc := s.th[i].pc; pc.Publish? || pc.Raise? || pc.Await? || pc.Signal?
    ensures IsOrdered(|s.th|, i, Own(s, i).pc)
  {
    hide CoarseToFine, Increasing;
  }

  lemma OwnIsOrdered(s: State, i: nat)
    requires i < |s.th| && Enabled(s, i) && IsOrdered(|s.th|, i, s.th[i].pc)
    ensures IsOrdered(|s.th|, i, Own(s, i).pc)
  {
    hide IsOrdered, Own;
    var pc := s.th[i].pc;
    if pc.Parked? || pc.BeforeJoin? || pc.Notify? || pc.Execute? {
      CallWalksAreOrdered(s, i);
    } else if pc.AwaitKids? || pc.Merge? || pc.Join? {
      CompletionIsOrdered(s, i);
    } else if pc.Publish? || pc.Raise? || pc.Await? || pc.Signal? {
      OthersAreOrdered(s, i);
    } else {
      SyncIsOrdered(s, i);
    }
  }

  ghost predicate AllOrdered(s: State) {
    forall i: nat :: i < |s.th| ==> IsOrdered(|s.th|, i, s.th[i].pc)
  }

  lemma MainKeepsPcs(s: State)
    requires MainEnabled(s)
    ensures |MainStep(s).th| == |s.th|
    ensures forall i: nat :: i < |s.th| ==> MainStep(s).th[i].pc == s.th[i].pc || MainStep(s).th[i].pc == Parked
  {
  }

  lemma StepIsOrdered(s: State, e: Event)
    requires AllOrdered(s) && CanHappen(s, e)
    ensures AllOrdered(After(s, e))
  {
    hide Enabled, MainEnabled, Own, CoarseToFine, Increasing, NumThreadsForTask, HaveWork;
    match e
    case OfThread(i) =>
      OwnIsOrdered(s, i);
      hide Hit;
    case OfMain => MainKeepsPcs(s);
    case OfCaller(t) =>
    case Drop =>
  }

  lemma {:induction false} RunIsOrdered(s: State, es: seq<Event>)
    requires AllOrdered(s) && IsRun(s, es)
    ensures AllOrdered(Final(s, es))
    decreases |es|
  {
    hide AllOrdered, CanHappen, After;
    if es != [] {
      StepIsOrdered(s, es[0]);
      RunIsOrdered(After(s, es[0]), es[1..]);
    }
  }

  /** The order holds throughout every run. */
  lemma TargetsInOrder(s: State, i: nat)
    requires Reachable(s) && i < |s.th|
    ensures IsOrdered(|s.th|, i, s.th[i].pc)
  {
    var start, es :| Initial(start) && IsRun(start, es) && s == Final(start, es);
    assert forall i :: 0 <= i < |start.th| ==> FreshThread(start.th[i]);
    RunIsOrdered(start, es);
  }
}
