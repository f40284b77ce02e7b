/** The height of the tree: strides shrink by a factor of eight, so every thread is close to the root. */
module TreeDepth {
  import opened Tree
  import opened TreeCover

  /** The stride on the `k`-th level. */
  ghost function StrideAt(n: nat, k: nat): nat {
    if k == 0 then n else NextSubstride(StrideAt(n, k - 1))
  }

  ghost function Pow8(k: nat): (p: nat)
    ensures p >= 1
  {
    if k == 0 then 1 else TREE_BREADTH * Pow8(k - 1)
  }

  lemma CeilingStep(n: nat, q: nat, r: nat, p: nat)
    requires r >= 1 && (q - 1) * p < n <= q * p && 8 * (r - 1) <= q - 1 && q <= 8 * r
    ensures (r - 1) * (8 * p) < n <= r * (8 * p)
  {
    MulLeq(8 * (r - 1), q - 1, p);
    MulLeq(q, 8 * r, p);
  }

  /** The stride on level `k` is `n` divided by the `k`-th power of eight, rounded up. */
  lemma {:induction false} StrideIsCeiling(n: nat, k: nat)
    requires n >= 1
    ensures var q := StrideAt(n, k); q >= 1 && (q - 1) * Pow8(k) < n <= q * Pow8(k)
    decreases k
  {
    if k > 0 {
      StrideIsCeiling(n, k - 1);
      CeilingStep(n, StrideAt(n, k - 1), StrideAt(n, k), Pow8(k - 1));
    }
  }

  lemma MulLeq(a: int, b: int, p: nat)
    requires a <= b
    ensures a * p <= b * p
  {
  }

  /** How many levels lie below a call with this stride. */
  ghost function Levels(stride: nat): nat {
    if stride <= 1 then 0 else 1 + Levels(NextSubstride(stride))
  }

  lemma {:induction false} LevelsOfStride(n: nat, k: nat, m: nat)
    requires k <= m && StrideAt(n, m) <= 1
    ensures Levels(StrideAt(n, k)) <= m - k
    decreases m - k
  {
    if k < m {
      LevelsOfStride(n, k + 1, m);
    }
  }

  /** The number of edges between a thread and the root. */
  ghost function Depth(n: nat, v: nat): nat
    requires v < n
    decreases v
  {
    if v == 0 then 0 else 1 + Depth(n, Parent(n, v))
  }

  lemma {:induction false} LevelsGrowUpwards(first: nat, stride: nat, i: nat)
    requires first < i < first + stride
    ensures Levels(RecordedStride(first, stride, i)) < Levels(RecordedStride(first, stride, ParentIn(first, stride, i)))
    decreases stride
  {
    var substride := NextSubstride(stride);
    var j := Slot(first, substride, i);
    if j != i {
      LevelsGrowUpwards(j, substride, i);
      SlotOfSlot(first, substride, i, ParentIn(j, substride, i));
    }
  }

  lemma {:induction false} DepthAndLevels(n: nat, v: nat)
    requires v < n
    ensures Depth(n, v) + Levels(NumSubthreads(n, v)) <= Levels(n)
    decreases v
  {
    if v > 0 {
      LevelsGrowUpwards(0, n, v);
      DepthAndLevels(n, Parent(n, v));
    }
  }

  /** Every thread is at most `m` edges from the root as soon as `8^m >= n`. */
  lemma DepthIsLogarithmic(n: nat, v: nat, m: nat)
    requires v < n <= Pow8(m)
    ensures Depth(n, v) <= m
  {
    StrideIsCeiling(n, m);
    var q := StrideAt(n, m);
    if q > 1 {
      MulLeq(1, q - 1, Pow8(m));
    }
    LevelsOfStride(n, 0, m);
    DepthAndLevels(n, v);
  }

  lemma {:induction false} LevelLength(i: nat, substride: nat, last: nat, k: nat)
    requires substride >= 1 && last <= i + k * substride
    ensures |Level(i, substride, last)| <= k
    decreases k
  {
    if i < last {
      assert k > 0;
      assert k * substride == substride + (k - 1) * substride;
      LevelLength(i + substride, substride, last, k - 1);
    }
  }

  /** On each level a thread has at most seven targets. */
  lemma AtMostSevenPerLevel(t: nat, stride: nat, last: nat)
    requires stride >= 1 && last <= t + stride
    ensures |Level(t + NextSubstride(stride), NextSubstride(stride), last)| <= TREE_BREADTH - 1
  {
    LevelLength(t + NextSubstride(stride), NextSubstride(stride), last, 7);
  }
}
