/** The subtree below a thread is an interval of threads. */
module TreeIntervals {
  import opened Tree
  import opened TreeCover

  /** `v` is `t` or hangs below it. All threads between them have smaller indices than `v`, so they are below any concurrency
      that `v` is below. */
  ghost predicate IsBelow(n: nat, t: nat, v: nat)
    requires v < n
    decreases v
  {
    v == t || (v > 0 && IsBelow(n, t, Parent(n, v)))
  }

  lemma {:induction false} BelowIsTransitive(n: nat, t: nat, k: nat, v: nat)
    requires k < n && v < n && IsBelow(n, t, k) && IsBelow(n, k, v)
    ensures IsBelow(n, t, v)
    decreases v
  {
    if v != k {
      BelowIsTransitive(n, t, k, Parent(n, v));
    }
  }

  lemma {:induction false} BelowIsAbove(n: nat, t: nat, v: nat)
    requires v < n && IsBelow(n, t, v)
    ensures t <= v
    decreases v
  {
    if v != t {
      BelowIsAbove(n, t, Parent(n, v));
    }
  }

  /** The child of `t` through which one gets to `v`. */
  lemma {:induction false} ChildOnPath(n: nat, t: nat, v: nat) returns (k: nat)
    requires v < n && t != v && IsBelow(n, t, v)
    ensures 0 < k < n && Parent(n, k) == t && IsBelow(n, k, v)
    decreases v
  {
    if Parent(n, v) == t {
      k := v;
    } else {
      k := ChildOnPath(n, t, Parent(n, v));
    }
  }

  /** One of the tiles holds `v`. */
  lemma {:induction false} TileOf(n: nat, c: nat, ks: seq<nat>, from: nat, to: nat, v: nat) returns (k: nat)
    requires Tiles(n, c, ks, from, to) && from <= v < to
    ensures k in ks && k < n && k <= v < End(n, c, k)
    decreases |ks|
  {
    k := from;
    if v >= End(n, c, from) {
      k := TileOf(n, c, ks[1..], End(n, c, from), to, v);
    }
  }

  lemma {:induction false} TileIsInside(n: nat, c: nat, ks: seq<nat>, from: nat, to: nat, k: nat)
    requires Tiles(n, c, ks, from, to) && k in ks && c <= n
    ensures k < n && from <= k && End(n, c, k) <= to
    ensures from <= to
    decreases |ks|
  {
    TilesGrow(n, c, ks, from, to);
    TilesGrow(n, c, ks[1..], End(n, c, from), to);
    if k != ks[0] {
      assert k in ks[1..];
      TileIsInside(n, c, ks[1..], End(n, c, from), to, k);
    }
  }

  lemma {:induction false} TilesGrow(n: nat, c: nat, ks: seq<nat>, from: nat, to: nat)
    requires Tiles(n, c, ks, from, to)
    ensures from <= to
    decreases |ks|
  {
    if ks != [] {
      TilesGrow(n, c, ks[1..], End(n, c, from), to);
    }
  }

  /** At concurrency `c`, the threads below `t` are exactly those from `t` to its end. */
  lemma {:induction false} SubtreeIsInterval(n: nat, c: nat, t: nat, v: nat)
    requires NestedStrides(n) && t < c <= n && v < c
    ensures IsBelow(n, t, v) <==> t <= v < End(n, c, t)
    decreases if t <= v then v - t else 0
  {
    hide Up, Tiles, NestedStrides;
    TargetsTile(n, c, t);
    assert t < End(n, c, t);
    if IsBelow(n, t, v) && v != t {
      var k := ChildOnPath(n, t, v);
      BelowIsAbove(n, k, v);
      ChildrenAreTargets(n, c, t, k);
      SubtreeIsInterval(n, c, k, v);
      TileIsInside(n, c, Up(n, c, t), t + 1, End(n, c, t), k);
    }
    if t < v < End(n, c, t) {
      var k := TileOf(n, c, Up(n, c, t), t + 1, End(n, c, t), v);
      ChildrenAreTargets(n, c, t, k);
      SubtreeIsInterval(n, c, k, v);
      BelowIsTransitive(n, t, k, v);
    }
  }
}
