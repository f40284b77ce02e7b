/** Which threads the walks reach: exactly one caller per thread precisely when the strides are nested. */
module TreeCover {
  import opened Basics
  import opened Tree

  ghost predicate IsMultiple(q: nat, d: nat, x: nat) {
    q * d == x
  }

  ghost predicate Divides(d: nat, x: nat) {
    exists q: nat :: IsMultiple(q, d, x)
  }

  /** The stride divides evenly on every level from `stride` downwards. */
  ghost predicate Nested(stride: nat)
    decreases stride
  {
    stride <= 1 || (Divides(NextSubstride(stride), stride) && Nested(NextSubstride(stride)))
  }

  /** The strides below the root level divide evenly; the root level may be ragged because walks clip at the concurrency. */
  ghost predicate NestedStrides(n: nat) {
    n <= 1 || Nested(NextSubstride(n))
  }

  // ---------- One level ----------

  lemma {:induction false} LevelMembers(i: nat, substride: nat, last: nat, v: nat)
    requires substride >= 1
    ensures v in Level(i, substride, last) <==> i <= v < last && Slot(i, substride, v) == v
    decreases if i < last then last - i else 0
  {
    if i < last {
      LevelMembers(i + substride, substride, last, v);
    }
  }

  lemma {:induction false} SlotOfSlot(first: nat, substride: nat, i: nat, v: nat)
    requires substride >= 1 && first <= i
    requires Slot(first, substride, i) <= v < Slot(first, substride, i) + substride
    ensures Slot(first, substride, v) == Slot(first, substride, i)
    decreases i - first
  {
    if i >= first + substride {
      SlotOfSlot(first + substride, substride, i, v);
    }
  }

  lemma {:induction false} SlotInside(first: nat, substride: nat, stride: nat, i: nat)
    requires substride >= 1 && first <= i < first + stride && Divides(substride, stride)
    ensures Slot(first, substride, i) + substride <= first + stride
    decreases stride
  {
    var q: nat :| IsMultiple(q, substride, stride);
    MultipleStep(q, substride, stride);
    if i >= first + substride {
      SlotInside(first + substride, substride, stride - substride, i);
    }
  }

  lemma MultipleStep(q: nat, d: nat, x: nat)
    requires x > 0 && IsMultiple(q, d, x)
    ensures x >= d && Divides(d, x - d)
  {
    assert q >= 1;
    assert q * d == (q - 1) * d + d;
    assert IsMultiple(q - 1, d, x - d);
  }

  // ---------- The two walks visit the same targets ----------

  lemma {:induction false} WalksAgree(t: nat, last: nat, stride: nat, v: nat)
    requires stride >= 1
    ensures v in UpWalk(t, last, stride) <==> v in DownWalk(t, last, stride)
    decreases stride
  {
    if stride != 1 {
      var substride := NextSubstride(stride);
      WalksAgree(t, Min(t + substride, last), substride, v);
    }
  }

  ghost predicate Increasing(s: seq<nat>) {
    forall i, j :: 0 <= i < j < |s| ==> s[i] < s[j]
  }

  ghost predicate NoDup(s: seq<nat>) {
    forall i, j :: 0 <= i < j < |s| ==> s[i] != s[j]
  }

  lemma {:induction false} LevelIncreasing(i: nat, substride: nat, last: nat)
    requires substride >= 1
    ensures Increasing(Level(i, substride, last))
    ensures forall k :: 0 <= k < |Level(i, substride, last)| ==> i <= Level(i, substride, last)[k] < last
    decreases if i < last then last - i else 0
  {
    if i < last {
      LevelIncreasing(i + substride, substride, last);
    }
  }

  lemma {:induction false} UpWalkIncreasing(t: nat, last: nat, stride: nat)
    requires stride >= 1
    ensures Increasing(UpWalk(t, last, stride))
    ensures forall k :: 0 <= k < |UpWalk(t, last, stride)| ==> t < UpWalk(t, last, stride)[k] < last
    decreases stride
  {
    if stride != 1 {
      var substride := NextSubstride(stride);
      UpWalkIncreasing(t, Min(t + substride, last), substride);
      LevelIncreasing(t + substride, substride, last);
    }
  }

  lemma {:induction false} DownWalkNoDup(t: nat, last: nat, stride: nat)
    requires stride >= 1
    ensures NoDup(DownWalk(t, last, stride))
    ensures forall k :: 0 <= k < |DownWalk(t, last, stride)| ==> t < DownWalk(t, last, stride)[k] < last
    decreases stride
  {
    if stride != 1 {
      var substride := NextSubstride(stride);
      DownWalkNoDup(t, Min(t + substride, last), substride);
      LevelIncreasing(t + substride, substride, last);
    }
  }

  /** Both walks of a caller visit the same targets, none of them twice, and the up-walk in increasing order. */
  lemma WalkOrder(n: nat, c: nat, t: nat)
    requires t < n
    ensures Increasing(Up(n, c, t)) && NoDup(Down(n, c, t))
    ensures forall v :: v in Up(n, c, t) <==> v in Down(n, c, t)
    ensures forall v :: v in Up(n, c, t) ==> t < v < c
  {
    var r := NumSubthreads(n, t);
    var last := Min(t + r, c);
    UpWalkIncreasing(t, last, r);
    DownWalkNoDup(t, last, r);
    forall v ensures v in Up(n, c, t) <==> v in Down(n, c, t) {
      WalksAgree(t, last, r, v);
    }
  }

  // ---------- Every thread is reached ----------

  lemma StartsOnLevel(c: nat, first: nat, stride: nat, i: nat)
    requires first < i < first + stride && i < c && Slot(first, NextSubstride(stride), i) == i
    ensures i in UpWalk(first, Min(first + stride, c), stride)
  {
    LevelMembers(first + NextSubstride(stride), NextSubstride(stride), Min(first + stride, c), i);
  }

  /** For any strides, nested or not, a thread is visited by the thread that `Init` hung it below. */
  lemma {:induction false} ReachedInCall(c: nat, first: nat, stride: nat, i: nat)
    requires first < i < first + stride && i < c
    ensures var p, r := ParentIn(first, stride, i), RecordedStride(first, stride, ParentIn(first, stride, i));
            i in UpWalk(p, Min(p + r, c), r)
    decreases stride
  {
    var substride := NextSubstride(stride);
    var j := Slot(first, substride, i);
    if j == i {
      StartsOnLevel(c, first, stride, i);
    } else {
      ReachedInCall(c, j, substride, i);
      var p := ParentIn(j, substride, i);
      SlotOfSlot(first, substride, i, p);
    }
  }

  lemma Reached(n: nat, c: nat, i: nat)
    requires 0 < i < n && i < c
    ensures i in Up(n, c, Parent(n, i))
  {
    ReachedInCall(c, 0, n, i);
  }

  // ---------- With nested strides no thread is reached twice ----------

  /** Children of the call at `first` end inside it, or the call ends at the last thread anyway. */
  ghost predicate Fits(n: nat, first: nat, stride: nat) {
    Nested(stride) || (first == 0 && stride == n && NestedStrides(n))
  }

  lemma FitsChild(n: nat, first: nat, stride: nat, i: nat)
    requires Fits(n, first, stride) && first <= i < first + stride && stride >= 2
    ensures var j := Slot(first, NextSubstride(stride), i);
            Fits(n, j, NextSubstride(stride)) && Min(j + NextSubstride(stride), n) <= first + stride
  {
    if Nested(stride) {
      SlotInside(first, NextSubstride(stride), stride, i);
    }
  }

  /** A target of `first` itself is in the call below it, or it starts a child interval. */
  lemma OwnTargets(n: nat, c: nat, first: nat, stride: nat, v: nat)
    requires stride >= 2 && v in UpWalk(first, Min(first + stride, c), stride)
    ensures v in UpWalk(first, Min(first + NextSubstride(stride), c), NextSubstride(stride)) ||
            (first < v && Slot(first, NextSubstride(stride), v) == v)
  {
    var substride := NextSubstride(stride);
    LevelMembers(first + substride, substride, Min(first + stride, c), v);
  }

  lemma OwnTargetIsChild(n: nat, c: nat, first: nat, stride: nat, v: nat)
    requires Fits(n, first, stride) && stride >= 2 && c <= n && v in UpWalk(first, Min(first + stride, c), stride)
    requires first < v < Min(first + stride, c)
    requires var substride := NextSubstride(stride);
             v in UpWalk(first, Min(first + substride, c), substride) ==> v < first + substride && ParentIn(first, substride, v) == first
    ensures v < first + stride && v < n && ParentIn(first, stride, v) == first
  {
    OwnTargets(n, c, first, stride, v);
    hide UpWalk;
  }

  lemma InnerTargetIsChild(n: nat, first: nat, stride: nat, t: nat, v: nat)
    requires Fits(n, first, stride) && stride >= 2 && first < t < first + stride && v < n
    requires var substride := NextSubstride(stride); var j := Slot(first, substride, t);
             t < v < j + substride && ParentIn(j, substride, v) == t
    ensures v < first + stride && ParentIn(first, stride, v) == t
  {
    hide Fits;
    FitsChild(n, first, stride, t);
    SlotOfSlot(first, NextSubstride(stride), t, v);
  }

  /** Whatever a thread of the call at `first` visits lies inside that call and has that thread as its parent. */
  lemma {:induction false} VisitsOwnChild(n: nat, c: nat, first: nat, stride: nat, t: nat, v: nat)
    requires Fits(n, first, stride) && first <= t < first + stride && t < n && c <= n
    requires var r := RecordedStride(first, stride, t); v in UpWalk(t, Min(t + r, c), r)
    ensures first <= t < v < first + stride && v < n && ParentIn(first, stride, v) == t
    decreases stride
  {
    hide UpWalk, ParentIn, Slot, Fits;
    var r := RecordedStride(first, stride, t);
    UpWalkIncreasing(t, Min(t + r, c), r);
    var substride := NextSubstride(stride);
    assert stride >= 2;
    FitsChild(n, first, stride, t);
    if t == first {
      if v in UpWalk(t, Min(t + substride, c), substride) {
        VisitsOwnChild(n, c, first, substride, t, v);
      }
      OwnTargetIsChild(n, c, first, stride, v);
    } else {
      VisitsOwnChild(n, c, Slot(first, substride, t), substride, t, v);
      InnerTargetIsChild(n, first, stride, t, v);
    }
  }

  /** The targets of `t` are exactly the threads below the concurrency whose parent is `t`. */
  lemma ChildrenAreTargets(n: nat, c: nat, t: nat, v: nat)
    requires NestedStrides(n) && t < n && c <= n
    ensures v in Up(n, c, t) <==> 0 < v < c && Parent(n, v) == t
  {
    if v in Up(n, c, t) {
      VisitsOwnChild(n, c, 0, n, t, v);
      UpWalkIncreasing(t, Min(t + NumSubthreads(n, t), c), NumSubthreads(n, t));
    }
    if 0 < v < c && Parent(n, v) == t {
      Reached(n, c, v);
    }
  }

  // ---------- Without nested strides some thread is reached twice ----------

  /** A call that is cut off at `last` before its stride ends: some thread of it also visits `last`. */
  lemma {:induction false} OverrunVisits(n: nat, first: nat, last: nat, stride: nat) returns (x: nat)
    requires first < last < first + stride && last < n
    ensures first <= x < last
    ensures var r := if x == first then stride else RecordedStride(first, stride, x);
            last in UpWalk(x, Min(x + r, n), r)
    decreases stride
  {
    var substride := NextSubstride(stride);
    var j := Slot(first, substride, last);
    if j == last {
      x := first;
      LevelMembers(first + substride, substride, Min(first + stride, n), last);
    } else {
      x := OverrunVisits(n, j, last, substride);
      SlotOfSlot(first, substride, last, x);
      if x == first {
        assert last in UpWalk(x, Min(x + substride, n), substride);
      }
    }
  }

  lemma {:induction false} SlotIsMultiple(first: nat, substride: nat, v: nat)
    requires substride >= 1 && first <= v && Divides(substride, first)
    ensures Divides(substride, Slot(first, substride, v))
    decreases v - first
  {
    if v >= first + substride {
      var q: nat :| IsMultiple(q, substride, first);
      assert IsMultiple(q + 1, substride, first + substride);
      SlotIsMultiple(first + substride, substride, v);
    }
  }

  ghost predicate RootStrides(n: nat, stride: nat) {
    forall w :: 0 < w < stride && w < n ==> NumSubthreads(n, w) == RecordedStride(0, stride, w)
  }

  lemma RaggedHere(n: nat, stride: nat) returns (x: nat)
    requires 0 < stride < n && !Divides(NextSubstride(stride), stride) && RootStrides(n, stride)
    ensures 0 < x < stride && stride in Up(n, n, x)
  {
    hide RecordedStride, UpWalk, Slot, Divides, RootStrides;
    var substride := NextSubstride(stride);
    var j := Slot(0, substride, stride);
    RaggedSlot(stride);
    x := OverrunVisits(n, j, stride, substride);
    SlotOfSlot(0, substride, stride, x);
    RaggedStride(n, stride, x);
  }

  /** A child interval that ends after the stride starts inside it, after its beginning. */
  lemma RaggedSlot(stride: nat)
    requires stride > 0 && !Divides(NextSubstride(stride), stride)
    ensures 0 < Slot(0, NextSubstride(stride), stride) < stride
  {
    var substride := NextSubstride(stride);
    assert IsMultiple(0, substride, 0) && IsMultiple(1, substride, substride) && IsMultiple(stride, 1, stride);
    SlotIsMultiple(0, substride, stride);
  }

  lemma RaggedStride(n: nat, stride: nat, x: nat)
    requires RootStrides(n, stride) && 0 < x < stride && x < n
    ensures var j := Slot(0, NextSubstride(stride), x);
            NumSubthreads(n, x) == if j == x then NextSubstride(stride) else RecordedStride(j, NextSubstride(stride), x)
  {
    assert NumSubthreads(n, x) == RecordedStride(0, stride, x);
  }

  /** If the call of thread 0 with `stride` is ragged somewhere below, a thread is visited both by 0 and by another one. */
  lemma {:induction false} RaggedVisits(n: nat, stride: nat) returns (v: nat, x: nat)
    requires stride < n && !Nested(stride) && stride in Up(n, n, 0)
    requires forall w :: w in UpWalk(0, stride, stride) ==> w in Up(n, n, 0)
    requires RootStrides(n, stride)
    ensures 0 < x < v < n && v in Up(n, n, 0) && v in Up(n, n, x)
    decreases stride
  {
    var substride := NextSubstride(stride);
    if !Divides(substride, stride) {
      v := stride;
      x := RaggedHere(n, stride);
    } else {
      LevelMembers(substride, substride, stride, substride);
      v, x := RaggedVisits(n, substride);
    }
  }

  lemma RaggedFromRoot(n: nat) returns (v: nat, x: nat)
    requires !NestedStrides(n)
    ensures 0 < x < v < n && v in Up(n, n, 0) && v in Up(n, n, x)
  {
    var stride := NextSubstride(n);
    LevelMembers(stride, stride, n, stride);
    forall w | 0 < w < stride ensures NumSubthreads(n, w) == RecordedStride(0, stride, w) {
      assert Slot(0, stride, w) == 0;
    }
    v, x := RaggedVisits(n, stride);
  }

  ghost predicate HasOneCaller(n: nat, v: nat) {
    (exists t | 0 <= t < n :: v in Up(n, n, t)) &&
    (forall t, u | 0 <= t < n && 0 <= u < n && v in Up(n, n, t) && v in Up(n, n, u) :: t == u)
  }

  /** `NestedStrides` is exactly the condition under which every thread but the root has one caller, and only one. */
  lemma NestedIsNecessaryAndSufficient(n: nat)
    requires n >= 1
    ensures NestedStrides(n) <==> forall v :: 0 < v < n ==> HasOneCaller(n, v)
  {
    if NestedStrides(n) {
      forall v | 0 < v < n ensures HasOneCaller(n, v) {
        Reached(n, n, v);
        forall t | 0 <= t < n && v in Up(n, n, t) ensures t == Parent(n, v) {
          ChildrenAreTargets(n, n, t, v);
        }
      }
    } else {
      var v, x := RaggedFromRoot(n);
      assert !HasOneCaller(n, v);
    }
  }

  /** Up to 64 threads the condition holds by itself; 65 is the first squad size that breaks it. */
  lemma SmallSquadsAreNested(n: nat)
    ensures n <= 64 ==> NestedStrides(n)
    ensures !NestedStrides(65) && 9 in Up(65, 65, 0) && 9 in Up(65, 65, 8)
  {
    if 2 <= n <= 64 {
      var stride := NextSubstride(n);
      assert NextSubstride(stride) == 1 && IsMultiple(stride, 1, stride);
    }
    assert NextSubstride(65) == 9 && NextSubstride(9) == 2 && NextSubstride(2) == 1;
    assert Slot(0, 9, 8) == 0;
    assert Slot(0, 2, 8) == 8 by {
      assert Slot(4, 2, 8) == Slot(6, 2, 8) == Slot(8, 2, 8) == 8;
    }
    assert NumSubthreads(65, 8) == RecordedStride(0, 9, 8) == RecordedStride(8, 2, 8) == 2;
    LevelMembers(9, 9, 65, 9);
    LevelMembers(9, 1, 10, 9);
  }

  // ---------- Subtrees are intervals ----------

  /** One past the last thread of the subtree of `t` at concurrency `c`. */
  ghost function End(n: nat, c: nat, t: nat): nat
    requires t < n
  {
    Min(t + NumSubthreads(n, t), c)
  }

  /** The subtrees of `ks` are consecutive intervals that together make up `[from, to)`. */
  ghost predicate Tiles(n: nat, c: nat, ks: seq<nat>, from: nat, to: nat) {
    if ks == [] then from == to
    else ks[0] == from && from < n && from < c && Tiles(n, c, ks[1..], End(n, c, from), to)
  }

  lemma {:induction false} TilesConcat(n: nat, c: nat, a: seq<nat>, b: seq<nat>, from: nat, mid: nat, to: nat)
    requires Tiles(n, c, a, from, mid) && Tiles(n, c, b, mid, to)
    ensures Tiles(n, c, a + b, from, to)
    decreases |a|
  {
    if a == [] {
      assert a + b == b;
    } else {
      assert (a + b)[1..] == a[1..] + b;
      TilesConcat(n, c, a[1..], b, End(n, c, from), mid, to);
    }
  }

  /** The threads inside the call of `t` get the strides that this call gives them. */
  lemma {:induction false} StridesAreLocal(n: nat, first: nat, stride: nat, t: nat, i: nat)
    requires Fits(n, first, stride) && first <= t < first + stride
    requires t < i < t + RecordedStride(first, stride, t) && i < n
    ensures i < first + stride
    ensures RecordedStride(first, stride, i) == RecordedStride(t, RecordedStride(first, stride, t), i)
    decreases stride
  {
    if t != first {
      var substride := NextSubstride(stride);
      var j := Slot(first, substride, t);
      FitsChild(n, first, stride, t);
      StridesAreLocal(n, j, substride, t, i);
      SlotOfSlot(first, substride, t, i);
    }
  }

  lemma {:induction false} SlotStep(first: nat, substride: nat, i: nat)
    requires substride >= 1 && first <= i && Slot(first, substride, i) == i
    ensures Slot(first, substride, i + substride) == i + substride
    decreases i - first
  {
    if i >= first + substride {
      SlotStep(first + substride, substride, i);
    }
  }

  ghost predicate LocalStrides(n: nat, c: nat, t: nat, stride: nat) {
    forall i :: t < i < Min(t + stride, n) ==> NumSubthreads(n, i) == RecordedStride(t, stride, i)
  }

  /** A target on the first level below `t` has the stride of that level, and its subtree ends inside that of `t`. */
  lemma TargetEnd(n: nat, c: nat, t: nat, stride: nat, i: nat)
    requires Fits(n, t, stride) && stride >= 2 && c <= n && LocalStrides(n, c, t, stride)
    requires t < i < Min(t + stride, c) && Slot(t, NextSubstride(stride), i) == i
    ensures i < n && End(n, c, i) == Min(Min(i + NextSubstride(stride), t + stride), c)
  {
    var substride := NextSubstride(stride);
    FitsChild(n, t, stride, i);
    assert RecordedStride(t, stride, i) == RecordedStride(i, substride, i) == substride;
    assert NumSubthreads(n, i) == substride;
    hide NumSubthreads, Nested;
  }

  lemma {:induction false} LevelTiles(n: nat, c: nat, t: nat, stride: nat, i: nat)
    requires Fits(n, t, stride) && stride >= 2 && c <= n && LocalStrides(n, c, t, stride)
    requires t < i <= Min(t + stride, c) && (i < Min(t + stride, c) ==> Slot(t, NextSubstride(stride), i) == i)
    ensures Tiles(n, c, Level(i, NextSubstride(stride), Min(t + stride, c)), i, Min(t + stride, c))
    decreases n - i
  {
    hide NumSubthreads, Fits, LocalStrides, End;
    var substride := NextSubstride(stride);
    var last := Min(t + stride, c);
    if i < last {
      TargetEnd(n, c, t, stride, i);
      if i + substride <= last {
        SlotStep(t, substride, i);
        LevelTiles(n, c, t, stride, i + substride);
      }
    }
  }

  lemma FirstLevelTiles(n: nat, c: nat, t: nat, stride: nat)
    requires Fits(n, t, stride) && stride >= 2 && t < c <= n && LocalStrides(n, c, t, stride)
    ensures var substride, last := NextSubstride(stride), Min(t + stride, c);
            Tiles(n, c, Level(t + substride, substride, last), Min(t + substride, c), last)
  {
    var substride := NextSubstride(stride);
    SlotStep(t, substride, t);
    LevelTiles(n, c, t, stride, Min(t + substride, c));
  }

  lemma JoinLevels(n: nat, c: nat, t: nat, stride: nat, below: seq<nat>)
    requires Fits(n, t, stride) && stride >= 2 && t < c <= n && LocalStrides(n, c, t, stride)
    requires Tiles(n, c, below, t + 1, Min(t + NextSubstride(stride), c))
    ensures var substride, last := NextSubstride(stride), Min(t + stride, c);
            Tiles(n, c, below + Level(t + substride, substride, last), t + 1, last)
  {
    var substride := NextSubstride(stride);
    var mid, last := Min(t + substride, c), Min(t + stride, c);
    FirstLevelTiles(n, c, t, stride);
    TilesConcat(n, c, below, Level(t + substride, substride, last), t + 1, mid, last);
  }

  lemma {:induction false} UpWalkTiles(n: nat, c: nat, t: nat, stride: nat)
    requires Fits(n, t, stride) && stride >= 1 && t < c <= n && LocalStrides(n, c, t, stride)
    ensures Tiles(n, c, UpWalk(t, Min(t + stride, c), stride), t + 1, Min(t + stride, c))
    decreases stride
  {
    if stride != 1 {
      var substride := NextSubstride(stride);
      var below := UpWalk(t, Min(t + substride, c), substride);
      assert Fits(n, t, substride) by {
        FitsChild(n, t, stride, t);
      }
      UpWalkTiles(n, c, t, substride);
      JoinLevels(n, c, t, stride, below);
      assert Min(t + substride, Min(t + stride, c)) == Min(t + substride, c);
    }
  }

  /** The subtrees of the targets of `t`, in up-walk order, tile the interval between `t` and its end. */
  lemma TargetsTile(n: nat, c: nat, t: nat)
    requires NestedStrides(n) && t < c <= n
    ensures Tiles(n, c, Up(n, c, t), t + 1, End(n, c, t))
  {
    var r := NumSubthreads(n, t);
    forall i | t < i < Min(t + r, n) ensures NumSubthreads(n, i) == RecordedStride(t, r, i) {
      StridesAreLocal(n, 0, n, t, i);
    }
    FitsSelf(n, 0, n, t);
    UpWalkTiles(n, c, t, r);
  }

  lemma {:induction false} FitsSelf(n: nat, first: nat, stride: nat, t: nat)
    requires Fits(n, first, stride) && first <= t < first + stride
    ensures Fits(n, t, RecordedStride(first, stride, t))
    decreases stride
  {
    if t != first {
      FitsChild(n, first, stride, t);
      FitsSelf(n, Slot(first, NextSubstride(stride), t), NextSubstride(stride), t);
    }
  }
}
