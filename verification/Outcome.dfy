/** What a caller can rely on when no call is in progress: which threads have executed which tasks. */
module Outcome {
  import opened Tree
  import opened TreeCover
  import opened Squad
  import opened History
  import opened Invariant
  import opened CallSafety

  /** What a caller can check before a call: a thread that this call would wake for the first time,
      other than in the first call, has no target below the wake count. */
  ghost predicate WakeSafe(n: nat, calls: seq<Task>) {
    forall g, p :: 0 < g < |calls| && 0 <= p < n && WakesFirst(n, calls, g, p) ==> Up(n, WakeCount(n, calls[g]), p) == []
  }

  ghost predicate WakesFirst(n: nat, calls: seq<Task>, g: nat, p: nat)
    requires g < |calls|
  {
    p < WakeCount(n, calls[g]) && forall h :: 0 <= h < g ==> p >= WakeCount(n, calls[h])
  }

  /** Every call wakes all threads below its wake count. */
  ghost predicate AllLive(n: nat, calls: seq<Task>) {
    forall g, v :: 0 <= g < |calls| && 0 <= v < n && v < WakeCount(n, calls[g]) ==> LiveIn(n, calls, g, v)
  }

  ghost predicate LiveIn(n: nat, calls: seq<Task>, g: nat, v: nat)
    requires g < |calls| && v < n
  {
    Live(n, calls[..g + 1], v)
  }

  // ---------- Executed and wanted ----------

  lemma {:induction false} ExecutedBound(n: nat, calls: seq<Task>, v: nat)
    requires v < n
    ensures forall i :: i in Executed(n, calls, v) ==> i < |calls|
    decreases |calls|
  {
    if calls != [] {
      ExecutedBound(n, Earlier(calls), v);
    }
  }

  ghost predicate LiveWhereWanted(n: nat, calls: seq<Task>, v: nat)
    requires v < n
  {
    forall g :: 0 <= g < |calls| && v < calls[g].concurrency ==> LiveIn(n, calls, g, v)
  }

  lemma LiveWhereWantedStep(n: nat, calls: seq<Task>, v: nat)
    requires v < n && calls != []
    ensures LiveWhereWanted(n, calls, v) <==>
            LiveWhereWanted(n, Earlier(calls), v) && (v < Current(calls).concurrency ==> Live(n, calls, v))
  {
    var front := Earlier(calls);
    assert calls[..|calls|] == calls;
    assert forall g :: 0 <= g < |front| ==> front[..g + 1] == calls[..g + 1] && front[g] == calls[g];
    if LiveWhereWanted(n, calls, v) {
      forall g | 0 <= g < |front| && v < front[g].concurrency ensures LiveIn(n, front, g, v) {
        assert LiveIn(n, calls, g, v);
        assert front[..g + 1] == calls[..g + 1];
      }
    }
    if LiveWhereWanted(n, front, v) && (v < Current(calls).concurrency ==> Live(n, calls, v)) {
      forall g | 0 <= g < |calls| && v < calls[g].concurrency ensures LiveIn(n, calls, g, v) {
        assert v < calls[g].concurrency;
        if g < |front| {
          assert LiveIn(n, front, g, v);
          assert front[..g + 1] == calls[..g + 1];
        }
      }
    }
  }

  lemma {:induction false} ExecutedIsWanted(n: nat, calls: seq<Task>, v: nat)
    requires v < n
    ensures Executed(n, calls, v) == Wanted(calls, v) <==> LiveWhereWanted(n, calls, v)
    decreases |calls|
  {
    if calls != [] {
      var front, g := Earlier(calls), |calls| - 1;
      ExecutedIsWanted(n, front, v);
      LiveWhereWantedStep(n, calls, v);
      ExecutedBound(n, front, v);
      var a, b := Executed(n, front, v), Wanted(front, v);
      if v < Current(calls).concurrency {
        if Live(n, calls, v) {
          assert a + [g] == b + [g] <==> a == b by {
            assert (a + [g])[..|a|] == a && (b + [g])[..|b|] == b;
          }
        } else {
          assert a + [] != b + [g] by {
            assert g !in a + [] && (b + [g])[|b|] == g;
          }
        }
      } else {
        assert a + [] == a && b + [] == b;
      }
    }
  }

  // ---------- Wake safety is exactly that every call wakes all its threads ----------

  lemma {:induction false} WokenBefore(n: nat, calls: seq<Task>, h: nat, p: nat)
    requires p < n && h < |calls| && Live(n, calls[..h + 1], p)
    ensures Wakes(n, calls, p) > 0
    decreases |calls|
  {
    if h == |calls| - 1 {
      assert calls[..h + 1] == calls;
    } else {
      assert Earlier(calls)[..h + 1] == calls[..h + 1];
      WokenBefore(n, Earlier(calls), h, p);
    }
  }

  lemma {:induction false} WokenWhen(n: nat, calls: seq<Task>, p: nat) returns (h: nat)
    requires p < n && Wakes(n, calls, p) > 0
    ensures h < |calls| && p < WakeCount(n, calls[h])
    decreases |calls|
  {
    if Live(n, calls, p) {
      h := |calls| - 1;
    } else {
      h := WokenWhen(n, Earlier(calls), p);
    }
  }

  lemma {:induction false} SafeCallWakes(n: nat, calls: seq<Task>, g: nat, v: nat)
    requires NestedStrides(n) && WakeSafe(n, calls) && (forall i :: 0 <= i < |calls| ==> WakeCount(n, calls[i]) <= n)
    requires g < |calls| && v < n && v < WakeCount(n, calls[g])
    ensures Live(n, calls[..g + 1], v)
    decreases g, v
  {
    var sofar := calls[..g + 1];
    assert Current(sofar) == calls[g] && Earlier(sofar) == calls[..g];
    if g > 0 && v > 0 {
      var p := Parent(n, v);
      SafeCallWakes(n, calls, g, p);
      Reached(n, WakeCount(n, calls[g]), v);
      assert !WakesFirst(n, calls, g, p);
      var h :| 0 <= h < g && p < WakeCount(n, calls[h]);
      SafeCallWakes(n, calls, h, p);
      assert calls[..g][..h + 1] == calls[..h + 1];
      WokenBefore(n, calls[..g], h, p);
    }
  }

  lemma LiveCallIsSafe(n: nat, calls: seq<Task>, g: nat, p: nat)
    requires NestedStrides(n) && AllLive(n, calls) && 0 < g < |calls| && p < n
    requires WakesFirst(n, calls, g, p) && WakeCount(n, calls[g]) <= n
    ensures Up(n, WakeCount(n, calls[g]), p) == []
  {
    var up, sofar := Up(n, WakeCount(n, calls[g]), p), calls[..g + 1];
    if up != [] {
      var v := up[0];
      ChildrenAreTargets(n, WakeCount(n, calls[g]), p, v);
      assert Earlier(sofar) == calls[..g];
      assert LiveIn(n, calls, g, v);
      var h := WokenWhen(n, calls[..g], p);
      assert false;
    }
  }

  /** A history is wake-safe exactly if every call in it reaches all the threads it is meant to wake. */
  lemma WakeSafeIsAllLive(n: nat, calls: seq<Task>)
    requires NestedStrides(n) && forall i :: 0 <= i < |calls| ==> WakeCount(n, calls[i]) <= n
    ensures WakeSafe(n, calls) <==> AllLive(n, calls)
  {
    if WakeSafe(n, calls) {
      forall g, v | 0 <= g < |calls| && 0 <= v < n && v < WakeCount(n, calls[g]) ensures LiveIn(n, calls, g, v) {
        SafeCallWakes(n, calls, g, v);
      }
    }
    if AllLive(n, calls) {
      forall g, p | 0 < g < |calls| && 0 <= p < n && WakesFirst(n, calls, g, p)
        ensures Up(n, WakeCount(n, calls[g]), p) == []
      {
        LiveCallIsSafe(n, calls, g, p);
      }
    }
  }

  // ---------- Exactly-once execution ----------

  lemma WantedIsWoken(s: State)
    requires Inv(s) && !Active(s)
    ensures AllLive(|s.th|, s.calls) <==> forall v: nat :: v < |s.th| ==> LiveWhereWanted(|s.th|, s.calls, v)
  {
    var n, calls := |s.th|, s.calls;
    if forall v: nat :: v < n ==> LiveWhereWanted(n, calls, v) {
      forall g, v | 0 <= g < |calls| && 0 <= v < n && v < WakeCount(n, calls[g]) ensures LiveIn(n, calls, g, v) {
        assert LiveWhereWanted(n, calls, v);
        if calls[g].joinRequested {
          assert RestAt(s, v);
          assert calls[..g + 1] == calls;
        }
      }
    }
    if AllLive(n, calls) {
      forall v: nat, g | v < n && 0 <= g < |calls| && v < calls[g].concurrency ensures LiveIn(n, calls, g, v) {
        assert CallOk(n, calls[g]);
      }
    }
  }

  /** Whenever no call is in progress, every thread has executed each task with a concurrency above its index exactly
      once, in the order of the calls, and no other task, if and only if the history of calls is wake-safe. */
  lemma ExactlyOnce(s: State)
    requires Reachable(s) && NestedStrides(|s.th|) && !Active(s)
    ensures (forall v: nat :: v < |s.th| ==> s.th[v].ran == Wanted(s.calls, v)) <==> WakeSafe(|s.th|, s.calls)
    ensures forall v: nat :: v < |s.th| ==> s.th[v].incoming == s.th[v].outgoing
    ensures s.main == Ready && s.calls != [] ==> forall v: nat :: v < |s.th| ==> s.th[v].pc == Parked
  {
    ReachableSafe(s);
    var n, calls := |s.th|, s.calls;
    forall v: nat | v < n
      ensures s.th[v].ran == Wanted(calls, v) <==> LiveWhereWanted(n, calls, v)
      ensures s.th[v].incoming == s.th[v].outgoing && (s.main == Ready && calls != [] ==> s.th[v].pc == Parked)
    {
      assert RestAt(s, v);
      ExecutedIsWanted(n, calls, v);
    }
    WantedIsWoken(s);
    forall i | 0 <= i < |calls| ensures WakeCount(n, calls[i]) <= n {
      assert CallOk(n, calls[i]);
    }
    WakeSafeIsAllLive(n, calls);
  }

  // ---------- When histories are wake-safe ----------

  /** A first call at full concurrency, the default, makes every later call safe. */
  lemma FullFirstCallIsSafe(n: nat, calls: seq<Task>)
    requires calls != [] && WakeCount(n, calls[0]) == n
    ensures WakeSafe(n, calls)
  {
  }

  /** In a squad of at most eight threads only thread 0 has targets, and the first call wakes it. */
  lemma SmallSquadIsSafe(n: nat, calls: seq<Task>)
    requires n <= 8 && calls != [] && WakeCount(n, calls[0]) >= 1
    ensures WakeSafe(n, calls)
  {
    forall g, p | 0 < g < |calls| && 0 <= p < n && WakesFirst(n, calls, g, p)
      ensures Up(n, WakeCount(n, calls[g]), p) == []
    {
      assert p > 0;
      assert NextSubstride(n) == 1;
      assert Slot(0, 1, p) == p;
      assert NumSubthreads(n, p) == 1;
    }
  }

  /** Sixteen threads, a first call on one thread and a second one on all: thread 2 is woken for the first time and does
      not notify thread 3, so the second call never wakes thread 3. */
  lemma UnsafeHistory(calls: seq<Task>)
    requires |calls| == 2 && WakeCount(16, calls[0]) == 1 && WakeCount(16, calls[1]) == 16
    ensures !WakeSafe(16, calls) && !Live(16, calls, 3) && Parent(16, 3) == 2
    ensures Executed(16, calls, 3) == []
  {
    assert NextSubstride(16) == 2 && NextSubstride(2) == 1;
    assert Slot(0, 2, 2) == 2 && Slot(0, 2, 3) == 2 && Slot(2, 1, 3) == 3;
    assert Parent(16, 3) == ParentIn(2, 2, 3) == 2;
    SmallSquadsAreNested(16);
    ChildrenAreTargets(16, 16, 2, 3);
    assert WakesFirst(16, calls, 1, 2);
    NotWokenByFirst(calls[..1]);
    assert Earlier(calls) == calls[..1];
  }

  lemma NotWokenByFirst(calls: seq<Task>)
    requires |calls| == 1 && WakeCount(16, calls[0]) == 1
    ensures Wakes(16, calls, 2) == 0 && Executed(16, calls, 3) == []
  {
    assert Earlier(calls) == [];
    assert !Live(16, calls, 2) && !Live(16, calls, 3);
  }
}
