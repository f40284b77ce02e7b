/** The 8-ary tree that a thread squad lays over its thread indices.

    `Init` records, for every thread, the stride of the outermost call that starts at it.
    `ToSubthreads` and `FromSubthreads` walk the edges below one thread, clipped at the concurrency of a task. */
module Tree {
  import opened Basics

  const TREE_BREADTH: nat := 8

  function NextSubstride(stride: nat): (substride: nat)
    ensures stride >= 1 ==> substride >= 1
    ensures stride >= 2 ==> substride < stride
  {
    (stride + (TREE_BREADTH - 1)) / TREE_BREADTH
  }

  // ---------- Specification of what `Init` records ----------

  /** The start of the child interval `[j, j + substride)` of a node at `first` that holds `i`. */
  ghost function Slot(first: nat, substride: nat, i: nat): (j: nat)
    requires substride >= 1 && first <= i
    ensures first <= j <= i < j + substride
    decreases i - first
  {
    if i < first + substride then first else Slot(first + substride, substride, i)
  }

  /** The stride that a call starting at `first` leaves behind for thread `i`. */
  ghost function RecordedStride(first: nat, stride: nat, i: nat): (r: nat)
    requires first <= i < first + stride
    ensures 1 <= r <= stride
    decreases stride
  {
    if i == first then stride
    else
      var substride := NextSubstride(stride);
      RecordedStride(Slot(first, substride, i), substride, i)
  }

  /** The thread below which `i` is hung by a call starting at `first`. */
  ghost function ParentIn(first: nat, stride: nat, i: nat): (p: nat)
    requires first < i < first + stride
    ensures first <= p < i
    decreases stride
  {
    var substride := NextSubstride(stride);
    var j := Slot(first, substride, i);
    if j == i then first else ParentIn(j, substride, i)
  }

  ghost function NumSubthreads(n: nat, i: nat): (r: nat)
    requires i < n
    ensures 1 <= r <= n
  {
    RecordedStride(0, n, i)
  }

  ghost function Parent(n: nat, i: nat): (p: nat)
    requires 0 < i < n
    ensures p < i
  {
    ParentIn(0, n, i)
  }

  // ---------- Specification of the walks ----------

  /** The indices `i`, `i + substride`, ... below `last`: one level of a walk. */
  ghost function Level(i: nat, substride: nat, last: nat): seq<nat>
    requires substride >= 1
    decreases if i < last then last - i else 0
  {
    if i < last then [i] + Level(i + substride, substride, last) else []
  }

  ghost function UpWalk(t: nat, last: nat, stride: nat): seq<nat>
    requires stride >= 1
    decreases stride
  {
    if stride == 1 then []
    else
      var substride := NextSubstride(stride);
      UpWalk(t, Min(t + substride, last), substride) + Level(t + substride, substride, last)
  }

  ghost function DownWalk(t: nat, last: nat, stride: nat): seq<nat>
    requires stride >= 1
    decreases stride
  {
    if stride == 1 then []
    else
      var substride := NextSubstride(stride);
      Level(t + substride, substride, last) + DownWalk(t, Min(t + substride, last), substride)
  }

  /** The targets of thread `t` at concurrency `c`, in the order in which it waits for them. */
  ghost function Up(n: nat, c: nat, t: nat): seq<nat>
    requires t < n
  {
    UpWalk(t, Min(t + NumSubthreads(n, t), c), NumSubthreads(n, t))
  }

  /** The targets of thread `t` at concurrency `c`, in the order in which it notifies them. */
  ghost function Down(n: nat, c: nat, t: nat): seq<nat>
    requires t < n
  {
    DownWalk(t, Min(t + NumSubthreads(n, t), c), NumSubthreads(n, t))
  }

  lemma Associate(a: seq<nat>, b: seq<nat>, c: seq<nat>)
    ensures a + (b + c) == a + b + c
  {
  }

  // ---------- The imperative form ----------

  class ThreadData {
    const numSubthreads: array<nat>

    constructor (numThreads: nat)
      requires numThreads >= 1
      ensures fresh(numSubthreads) && numSubthreads.Length == numThreads
      ensures forall i :: 0 <= i < numThreads ==> numSubthreads[i] == NumSubthreads(numThreads, i)
    {
      numSubthreads := new nat[numThreads];
      new;
      Init(0, numThreads, numThreads);
    }

    /** Writes the entries of `[first, last)` and no other. */
    method Init(first: nat, last: nat, stride: nat)
      requires first < last <= numSubthreads.Length && last <= first + stride
      modifies numSubthreads
      ensures forall i :: first <= i < last ==> numSubthreads[i] == RecordedStride(first, stride, i)
      ensures forall i :: 0 <= i < numSubthreads.Length && !(first <= i < last) ==>
                numSubthreads[i] == old(numSubthreads[i])
      decreases stride
    {
      if stride != 1 {
        var substride := NextSubstride(stride);
        var i := first;
        while i < last
          invariant first <= i
          invariant forall k :: first <= k < i && k < last ==>
                      numSubthreads[k] == RecordedStride(Slot(first, substride, k), substride, k)
          invariant forall k :: 0 <= k < numSubthreads.Length && !(first <= k < i && k < last) ==>
                      numSubthreads[k] == old(numSubthreads[k])
          invariant forall k :: i <= k ==> Slot(first, substride, k) == Slot(i, substride, k)
        {
          label before:
          Init(i, Min(i + substride, last), substride);
          forall k | first <= k < i + substride && k < last
            ensures numSubthreads[k] == RecordedStride(Slot(first, substride, k), substride, k)
          {
            if i <= k {
              assert Slot(i, substride, k) == i;
            }
          }
          i := i + substride;
        }
      }
      numSubthreads[first] := stride;
    }

    /** Visits the targets of `caller` from the coarsest level down; `visited` records the calls of `func`. */
    method ToSubthreads(caller: nat, concurrency: nat) returns (visited: seq<nat>)
      requires caller < numSubthreads.Length && numSubthreads[caller] >= 1
      ensures visited == DownWalk(caller, Min(caller + numSubthreads[caller], concurrency), numSubthreads[caller])
    {
      visited := [];
      var stride := numSubthreads[caller];
      var last := Min(caller + stride, concurrency);
      ghost var walk := DownWalk(caller, last, stride);
      while stride != 1
        invariant stride >= 1
        invariant visited + DownWalk(caller, last, stride) == walk
        decreases stride
      {
        var substride := NextSubstride(stride);
        var i := caller + substride;
        ghost var visitedBefore, below := visited, DownWalk(caller, Min(caller + substride, last), substride);
        ghost var level := Level(i, substride, last);
        while i < last
          invariant visited + Level(i, substride, last) == visitedBefore + level
        {
          Associate(visited, [i], Level(i + substride, substride, last));
          visited := visited + [i];
          i := i + substride;
        }
        assert visited + [] == visited;
        Associate(visitedBefore, level, below);
        last := Min(caller + substride, last);
        stride := substride;
      }
    }

    /** Visits the targets of `caller` from the finest level up; `visited` records the calls of `func`. */
    method FromSubthreads(caller: nat, concurrency: nat) returns (visited: seq<nat>)
      requires caller < numSubthreads.Length && numSubthreads[caller] >= 1
      ensures visited == UpWalk(caller, Min(caller + numSubthreads[caller], concurrency), numSubthreads[caller])
    {
      var stride := numSubthreads[caller];
      visited := FromSubthreadsImpl(caller, Min(caller + stride, concurrency), stride);
    }

    method FromSubthreadsImpl(first: nat, last: nat, stride: nat) returns (visited: seq<nat>)
      requires stride >= 1 && last <= first + stride
      ensures visited == UpWalk(first, last, stride)
      decreases stride
    {
      visited := [];
      var substride := NextSubstride(stride);
      if stride != 1 {
        visited := FromSubthreadsImpl(first, Min(first + substride, last), substride);
      }
      var i := first + substride;
      ghost var below := visited;
      ghost var level := Level(i, substride, last);
      while i < last
        invariant visited + Level(i, substride, last) == below + level
      {
        Associate(visited, [i], Level(i + substride, substride, last));
        visited := visited + [i];
        i := i + substride;
      }
    }
  }
}
