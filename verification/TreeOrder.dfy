/** Where the walks go and what `Init` records, in terms of the strides alone; for squads of any size. */
module TreeOrder {
  import opened Basics
  import opened Tree
  import opened TreeCover
  import opened TreeDepth
  import Rounding

  // ---------- Strides ----------

  lemma {:induction false} StridesBelow(stride: nat, k: nat)
    requires stride >= 1
    ensures StrideAt(NextSubstride(stride), k) == StrideAt(stride, k + 1)
    ensures 1 <= StrideAt(stride, k) <= stride
    decreases k
  {
    if k > 0 {
      StridesBelow(stride, k - 1);
    }
  }

  /** What is left of an index on the way down to level `k`. */
  ghost function Offset(n: nat, i: nat, k: nat): nat
    requires n >= 1
  {
    if k == 0 then i
    else
      StridesBelow(n, k);
      Offset(n, i, k - 1) % StrideAt(n, k)
  }

  lemma {:induction false} SlotIsRemainder(first: nat, substride: nat, i: nat)
    requires substride >= 1 && first <= i
    ensures i - Slot(first, substride, i) == (i - first) % substride
    decreases i - first
  {
    var d: nat := i - first;
    if d < substride {
      Rounding.DivisionIsUnique(d, substride, 0, d);
    } else {
      SlotIsRemainder(first + substride, substride, i);
      var q, r := (d - substride) / substride, (d - substride) % substride;
      assert d - substride == q * substride + r;
      Rounding.Distribute(q, 1, substride);
      Rounding.DivisionIsUnique(d, substride, q + 1, r);
    }
  }

  // ---------- What `Init` records ----------

  ghost predicate IsFirstZero(n: nat, i: nat, m: nat, k: nat)
    requires n >= 1
  {
    m < k && Offset(n, i, k) == 0 && forall j :: m < j < k ==> Offset(n, i, j) > 0
  }

  lemma {:induction false} RecordedInCall(n: nat, m: nat, first: nat, i: nat) returns (k: nat)
    requires n >= 1 && first < i < first + StrideAt(n, m) && i - first == Offset(n, i, m)
    ensures IsFirstZero(n, i, m, k) && Offset(n, i, k - 1) <= i
    ensures RecordedStride(first, StrideAt(n, m), i) == StrideAt(n, k) && ParentIn(first, StrideAt(n, m), i) == i - Offset(n, i, k - 1)
    decreases StrideAt(n, m)
  {
    var substride := StrideAt(n, m + 1);
    StridesBelow(n, m + 1);
    assert substride == NextSubstride(StrideAt(n, m));
    var j := Slot(first, substride, i);
    SlotIsRemainder(first, substride, i);
    assert Offset(n, i, m + 1) == i - j;
    if j == i {
      k := m + 1;
    } else {
      k := RecordedInCall(n, m + 1, j, i);
    }
  }

  /** A thread other than the root is recorded with the first stride at which nothing is left of its index, and hangs below the
      thread at which the stride before begins. */
  lemma CountAndParent(n: nat, i: nat) returns (k: nat)
    requires 0 < i < n
    ensures k >= 1 && Offset(n, i, k) == 0 && forall j :: 0 < j < k ==> Offset(n, i, j) > 0
    ensures NumSubthreads(n, i) == StrideAt(n, k)
    ensures Offset(n, i, k - 1) <= i && Parent(n, i) == i - Offset(n, i, k - 1)
  {
    k := RecordedInCall(n, 0, 0, i);
  }

  // ---------- Where the walks go ----------

  /** The distance `d` is covered on level `k` below a stride: a multiple of the stride there, and too far for deeper levels. */
  ghost predicate OnLevel(stride: nat, k: nat, d: nat)
    requires stride >= 1
  {
    StridesBelow(stride, k + 1);
    StrideAt(stride, k + 1) <= d < StrideAt(stride, k) && d % StrideAt(stride, k + 1) == 0
  }

  ghost predicate IsCovered(stride: nat, d: nat)
    requires stride >= 1
  {
    exists k: nat :: OnLevel(stride, k, d)
  }

  lemma LevelOfDistance(t: nat, stride: nat, last: nat, v: nat)
    requires stride >= 2 && last <= t + stride && v >= t
    ensures v in Level(t + NextSubstride(stride), NextSubstride(stride), last) <==> v < last && OnLevel(stride, 0, v - t)
  {
    var substride := NextSubstride(stride);
    LevelMembers(t + substride, substride, last, v);
    if v >= t + substride {
      SlotIsRemainder(t, substride, v);
      assert Slot(t, substride, v) == Slot(t + substride, substride, v);
    }
    assert StrideAt(stride, 1) == substride;
  }

  lemma OnLevelBelow(stride: nat, k: nat, d: nat)
    requires stride >= 2
    ensures OnLevel(NextSubstride(stride), k, d) <==> OnLevel(stride, k + 1, d)
    ensures OnLevel(NextSubstride(stride), k, d) ==> d < NextSubstride(stride)
  {
    StridesBelow(stride, k);
    StridesBelow(stride, k + 1);
    StridesBelow(NextSubstride(stride), k);
  }

  lemma CoveredBelow(stride: nat, d: nat)
    requires stride >= 2
    ensures IsCovered(stride, d) <==> OnLevel(stride, 0, d) || (d < NextSubstride(stride) && IsCovered(NextSubstride(stride), d))
  {
    hide OnLevel;
    if IsCovered(stride, d) {
      var k: nat :| OnLevel(stride, k, d);
      if k > 0 {
        OnLevelBelow(stride, k - 1, d);
      }
    }
    if IsCovered(NextSubstride(stride), d) {
      var k: nat :| OnLevel(NextSubstride(stride), k, d);
      OnLevelBelow(stride, k, d);
    }
  }

  lemma NothingIsCovered(d: nat)
    ensures !IsCovered(1, d)
  {
    forall k: nat ensures !OnLevel(1, k, d) {
      StridesBelow(1, k);
      StridesBelow(1, k + 1);
    }
  }

  lemma {:induction false} WalkMembers(t: nat, last: nat, stride: nat, v: nat)
    requires stride >= 1 && last <= t + stride && v >= t
    ensures v in DownWalk(t, last, stride) <==> v < last && IsCovered(stride, v - t)
    decreases stride
  {
    hide OnLevel, IsCovered, Level;
    if stride == 1 {
      NothingIsCovered(v - t);
    } else {
      var substride := NextSubstride(stride);
      LevelOfDistance(t, stride, last, v);
      WalkMembers(t, Min(t + substride, last), substride, v);
      CoveredBelow(stride, v - t);
    }
  }

  /** A thread is a target of `t` exactly if it is below the concurrency and within the stride of `t`, and some level below that
      stride covers its distance. */
  lemma TargetsByDistance(n: nat, c: nat, t: nat, v: nat)
    requires t < n
    ensures v in Down(n, c, t) <==> t < v < c && v < t + NumSubthreads(n, t) && IsCovered(NumSubthreads(n, t), v - t)
  {
    hide IsCovered, DownWalk;
    var r := NumSubthreads(n, t);
    WalkOrder(n, c, t);
    if v >= t {
      WalkMembers(t, Min(t + r, c), r, v);
    }
  }

  // ---------- In which order ----------

  /** The distance `d` comes before `e`: a stride lies between them and `d` is the greater one, or there is no such stride and
      `d` is the smaller one. */
  ghost predicate ComesBefore(stride: nat, d: nat, e: nat) {
    (exists k: nat :: e < StrideAt(stride, k) <= d) ||
    (d < e && forall k: nat :: !(d < StrideAt(stride, k) <= e))
  }

  lemma SameLevelOrder(stride: nat, d: nat, e: nat)
    requires stride >= 2 && NextSubstride(stride) <= d < e < stride
    ensures ComesBefore(stride, d, e)
  {
    forall k: nat ensures !(d < StrideAt(stride, k) <= e) {
      if k > 0 {
        StridesBelow(NextSubstride(stride), k - 1);
        StridesBelow(stride, k - 1);
      }
    }
  }

  lemma InnerOrder(stride: nat, d: nat, e: nat)
    requires stride >= 2 && ComesBefore(NextSubstride(stride), d, e) && e < NextSubstride(stride)
    ensures ComesBefore(stride, d, e)
  {
    var substride := NextSubstride(stride);
    if exists k: nat :: e < StrideAt(substride, k) <= d {
      var k: nat :| e < StrideAt(substride, k) <= d;
      StridesBelow(stride, k);
      assert e < StrideAt(stride, k + 1) <= d;
    } else {
      forall k: nat ensures !(d < StrideAt(stride, k) <= e) {
        if k > 0 {
          StridesBelow(stride, k - 1);
          assert !(d < StrideAt(substride, k - 1) <= e);
        }
      }
    }
  }

  lemma {:induction false} WalkGoesCoarseToFine(t: nat, last: nat, stride: nat, i: nat, j: nat)
    requires stride >= 1 && last <= t + stride && i < j < |DownWalk(t, last, stride)|
    ensures var d := DownWalk(t, last, stride); t < d[i] && t < d[j] && ComesBefore(stride, d[i] - t, d[j] - t)
    decreases stride
  {
    var substride := NextSubstride(stride);
    var inner := Min(t + substride, last);
    var level, below := Level(t + substride, substride, last), DownWalk(t, inner, substride);
    var d := DownWalk(t, last, stride);
    assert d == level + below;
    LevelIncreasing(t + substride, substride, last);
    DownWalkNoDup(t, inner, substride);
    if j < |level| {
      SameLevelOrder(stride, d[i] - t, d[j] - t);
    } else if i < |level| {
      assert d[j] == below[j - |level|] < t + substride <= d[i];
      assert StrideAt(stride, 1) == substride;
      assert d[j] - t < StrideAt(stride, 1) <= d[i] - t;
    } else {
      WalkGoesCoarseToFine(t, inner, substride, i - |level|, j - |level|);
      InnerOrder(stride, d[i] - t, d[j] - t);
    }
  }

  /** The down-walk takes the levels from coarse to fine, and each level from the nearest target to the farthest. */
  lemma DownOrder(n: nat, c: nat, t: nat, i: nat, j: nat)
    requires t < n && i < j < |Down(n, c, t)|
    ensures var d := Down(n, c, t); t < d[i] && t < d[j] && ComesBefore(NumSubthreads(n, t), d[i] - t, d[j] - t)
  {
    WalkGoesCoarseToFine(t, Min(t + NumSubthreads(n, t), c), NumSubthreads(n, t), i, j);
  }
}
