/** What a sequence of calls implies for each thread: which calls wake it, how often it synchronizes, what it executes. */
module History {
  import opened Tree
  import opened Squad

  ghost function Earlier(calls: seq<Task>): seq<Task>
    requires calls != []
  {
    calls[..|calls| - 1]
  }

  ghost function Current(calls: seq<Task>): Task
    requires calls != []
  {
    calls[|calls| - 1]
  }

  /** Whether the last call wakes thread `v`: the first call toggles the flags directly; later, thread 0 is notified by
      the main thread, and any other by its parent, unless this is the parent's first pass. */
  ghost predicate Live(n: nat, calls: seq<Task>, v: nat)
    requires v < n && calls != []
    decreases |calls|, v, 0
  {
    v < WakeCount(n, Current(calls)) &&
    (|calls| == 1 || v == 0 ||
     (Live(n, calls, Parent(n, v)) && Wakes(n, Earlier(calls), Parent(n, v)) > 0))
  }

  /** How many of the calls wake thread `v`. */
  ghost function Wakes(n: nat, calls: seq<Task>, v: nat): nat
    requires v < n
    decreases |calls|, v, 1
  {
    if calls == [] then 0
    else Wakes(n, Earlier(calls), v) + if Live(n, calls, v) then 1 else 0
  }

  /** How many synchronization rounds thread `v` reports to its parent in the last call. */
  ghost function Rounds(n: nat, calls: seq<Task>, v: nat): nat
    requires v < n && calls != []
  {
    if Live(n, calls, v) && 0 < v < Current(calls).concurrency then Current(calls).rounds else 0
  }

  ghost function Syncs(n: nat, calls: seq<Task>, v: nat): nat
    requires v < n
  {
    if calls == [] then 0 else Syncs(n, Earlier(calls), v) + Rounds(n, calls, v)
  }

  /** The calls that thread `v` executes, in order. */
  ghost function Executed(n: nat, calls: seq<Task>, v: nat): seq<nat>
    requires v < n
  {
    if calls == [] then []
    else Executed(n, Earlier(calls), v) +
         if Live(n, calls, v) && v < Current(calls).concurrency then [|calls| - 1] else []
  }

  /** The calls that thread `v` ought to execute: those whose concurrency exceeds its index. */
  ghost function Wanted(calls: seq<Task>, v: nat): seq<nat> {
    if calls == [] then []
    else Wanted(Earlier(calls), v) + if v < Current(calls).concurrency then [|calls| - 1] else []
  }

  lemma {:induction false} WantedMembers(calls: seq<Task>, v: nat, g: nat)
    ensures g in Wanted(calls, v) <==> g < |calls| && v < calls[g].concurrency
    ensures forall i, j :: 0 <= i < j < |Wanted(calls, v)| ==> Wanted(calls, v)[i] < Wanted(calls, v)[j]
    ensures forall i :: 0 <= i < |Wanted(calls, v)| ==> Wanted(calls, v)[i] < |calls|
    decreases |calls|
  {
    if calls != [] {
      WantedMembers(Earlier(calls), v, g);
    }
  }

  // ---------- The ordered fold ----------

  /** `f(a)`, `f(a + 1)`, ..., `f(b - 1)` combined from left to right. */
  ghost function Fold(op: (Value, Value) -> Value, f: nat -> Value, a: nat, b: nat): Value
    requires a < b
    decreases b - a
  {
    if b == a + 1 then f(a) else op(Fold(op, f, a, b - 1), f(b - 1))
  }

  /** What the first `r` synchronizations of a task return, and what the threads contribute to the next one. */
  ghost function Reductions(t: Task, r: nat): (sums: seq<Value>)
    requires t.concurrency > 0
    ensures |sums| == r
    decreases r, 0
  {
    if r == 0 then []
    else Reductions(t, r - 1) + [Fold(t.syncOp(r - 1), Contributions(t, r - 1), 0, t.concurrency)]
  }

  ghost function Contributions(t: Task, r: nat): nat -> Value
    requires t.concurrency > 0
    decreases r, 1
  {
    var sums := Reductions(t, r);
    (i: nat) => t.contribution(r)(i)(sums)
  }

  /** The operators of the first `r` synchronizations are associative. */
  ghost predicate AssociativeUpTo(t: Task, r: nat) {
    forall q: nat :: q < r ==> Associative(t.syncOp(q))
  }

  ghost predicate Associative(op: (Value, Value) -> Value) {
    forall x, y, z :: op(op(x, y), z) == op(x, op(y, z))
  }

  lemma {:induction false} FoldJoin(op: (Value, Value) -> Value, f: nat -> Value, a: nat, b: nat, c: nat)
    requires a < b < c && Associative(op)
    ensures op(Fold(op, f, a, b), Fold(op, f, b, c)) == Fold(op, f, a, c)
    decreases c
  {
    if c > b + 1 {
      FoldJoin(op, f, a, b, c - 1);
      var x, y, z := Fold(op, f, a, b), Fold(op, f, b, c - 1), f(c - 1);
      assert op(op(x, y), z) == op(x, op(y, z));
    }
  }
}
