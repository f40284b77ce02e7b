/** Alignment values with special flag bits, for a 64-bit `std::size_t`.

    The three flags are the topmost bits of an alignment value, so masking and testing them is division by `FLAG_UNIT`. */
module Alignment {
  import opened Basics
  import Rounding

  const FLAG_UNIT: nat := 0x2000_0000_0000_0000
  const SIZE_LIMIT: nat := 0x1_0000_0000_0000_0000

  // ---------- Bit operations ----------

  /** `x | y` */
  function Or(x: nat, y: nat): (r: nat)
    ensures Max(x, y) <= r <= x + y
    decreases x + y
  {
    if x == 0 then y
    else if y == 0 then x
    else 2 * Or(x / 2, y / 2) + Max(x % 2, y % 2)
  }

  /** `x >> k` */
  function Shr(x: nat, k: nat): (r: nat)
    ensures r <= x
  {
    if k == 0 then x else Shr(x / 2, k - 1)
  }

  // ---------- The source's functions ----------

  function SmearStep(x: nat, k: nat): nat {
    Or(x, Shr(x, k))
  }

  /** `floor_2p`: the sum wraps around if the topmost bit is set. */
  function Floor2p(x0: nat): nat {
    Shr((Smear(x0) + 1) % SIZE_LIMIT, 1)
  }

  function Smear(x0: nat): nat {
    var x1 := SmearStep(x0, 1);
    var x2 := SmearStep(x1, 2);
    var x3 := SmearStep(x2, 4);
    var x4 := SmearStep(x3, 8);
    var x5 := SmearStep(x4, 16);
    SmearStep(x5, 32)
  }

  function RawAlignmentInBytes(a: nat): nat {
    Max(1, Floor2p(a))
  }

  /** The sizes that the library asks the system for. */
  datatype Hardware = Hardware(largePage: nat, page: nat, cacheLine: nat, constructiveInterference: nat)

  /** `a & special_alignments`, in units of the lowest flag. */
  function Flags(a: nat): nat { a / FLAG_UNIT }

  /** `a & ~special_alignments` */
  function Plain(a: nat): nat { a % FLAG_UNIT }

  predicate HasLargePage(a: nat) { Flags(a) / 4 % 2 == 1 }
  predicate HasPage(a: nat) { Flags(a) / 2 % 2 == 1 }
  predicate HasCacheLine(a: nat) { Flags(a) % 2 == 1 }

  predicate ProvidesStaticAlignment(hw: Hardware, provided: nat, requested: nat) {
    var basicProvided := if Flags(provided) != 0 then Or(Plain(provided), hw.constructiveInterference) else Plain(provided);
    RawAlignmentInBytes(basicProvided) >= RawAlignmentInBytes(Plain(requested)) && Flags(provided) >= Flags(requested)
  }

  function LookupSpecialAlignments(hw: Hardware, a0: nat): nat {
    var a1 := if HasLargePage(a0) then Or(a0, hw.largePage) else a0;
    var a2 := if HasLargePage(a1) || HasPage(a1) then Or(a1, hw.page) else a1;
    var a3 := if HasCacheLine(a2) then Or(a2, hw.cacheLine) else a2;
    Plain(a3)
  }

  function AlignmentInBytes(hw: Hardware, a: nat): (bytes: nat)
    ensures bytes >= 1
  {
    Max(1, Floor2p(LookupSpecialAlignments(hw, a)))
  }

  lemma AlignmentIsBounded(hw: Hardware, a: nat)
    ensures 1 <= AlignmentInBytes(hw, a) < SIZE_LIMIT / 2
  {
    hide Smear, LookupSpecialAlignments;
    ShrOne((Smear(LookupSpecialAlignments(hw, a)) + 1) % SIZE_LIMIT);
  }

  predicate ProvidesDynamicAlignment(hw: Hardware, provided: nat, requested: nat) {
    AlignmentInBytes(hw, provided) >= AlignmentInBytes(hw, requested)
  }

  // ---------- floor_2p is the greatest power of two ----------

  ghost function Pow2(k: nat): (p: nat)
    ensures p >= 1
  {
    if k == 0 then 1 else 2 * Pow2(k - 1)
  }

  ghost function TopBit(x: nat): nat {
    if x <= 1 then x else 2 * TopBit(x / 2)
  }

  lemma {:induction false} TopBitIsGreatest(x: nat, k: nat)
    requires x >= 1
    ensures TopBit(x) <= x < 2 * TopBit(x)
    ensures exists j: nat :: TopBit(x) == Pow2(j)
    ensures Pow2(k) <= x ==> Pow2(k) <= TopBit(x)
    decreases x
  {
    if x == 1 {
      assert TopBit(x) == Pow2(0);
      assert k > 0 ==> Pow2(k) >= 2;
    } else {
      TopBitIsGreatest(x / 2, if k == 0 then 0 else k - 1);
      var j: nat :| TopBit(x / 2) == Pow2(j);
      assert TopBit(x) == Pow2(j + 1);
    }
  }

  lemma {:induction false} TopBitMonotone(x: nat, y: nat)
    requires x <= y
    ensures TopBit(x) <= TopBit(y)
    decreases y
  {
    if x > 1 {
      TopBitMonotone(x / 2, y / 2);
    } else if y > 1 {
      TopBitMonotone(x, y / 2);
    }
  }

  lemma {:induction false} TopBitOfOr(x: nat, y: nat)
    ensures TopBit(Or(x, y)) == Max(TopBit(x), TopBit(y))
    decreases x + y
  {
    if x != 0 && y != 0 {
      TopBitOfOr(x / 2, y / 2);
      assert Or(x, y) / 2 == Or(x / 2, y / 2);
      TopBitMonotone(1, x);
      TopBitMonotone(1, y);
    }
  }

  lemma {:induction false} ShrHalf(x: nat, k: nat)
    ensures Shr(x, k) / 2 == Shr(x / 2, k) == Shr(x, k + 1)
    decreases k
  {
    if k > 0 {
      ShrHalf(x / 2, k - 1);
    }
  }

  ghost predicate IsOdd(x: nat) { x % 2 == 1 }

  lemma SmearStepHalf(x: nat, k: nat)
    ensures SmearStep(x, k) / 2 == SmearStep(x / 2, k)
    ensures IsOdd(SmearStep(x, k)) <==> IsOdd(x) || IsOdd(Shr(x, k))
  {
    ShrHalf(x, k);
  }

  /** One of the lowest `w` bits is set. */
  ghost predicate AnyBit(x: nat, w: nat) {
    w > 0 && (x % 2 == 1 || AnyBit(x / 2, w - 1))
  }

  lemma {:induction false} AnyBitSplit(x: nat, a: nat, b: nat)
    ensures AnyBit(x, a + b) <==> AnyBit(x, a) || AnyBit(Shr(x, a), b)
    decreases a
  {
    if a > 0 {
      AnyBitSplit(x / 2, a - 1, b);
    }
  }

  lemma {:induction false} NonzeroHasBit(x: nat, w: nat)
    requires x < Pow2(w)
    ensures AnyBit(x, w) <==> x > 0
    decreases w
  {
    if w > 0 {
      NonzeroHasBit(x / 2, w - 1);
    }
  }

  /** The first `m` of the six steps. */
  ghost function SmearUpTo(x: nat, m: nat): nat {
    if m == 0 then x else SmearStep(SmearUpTo(x, m - 1), Pow2(m - 1))
  }

  lemma SmearUnfold(x: nat, m: nat, w: nat)
    requires m > 0 && Pow2(m - 1) == w
    ensures SmearUpTo(x, m) == SmearStep(SmearUpTo(x, m - 1), w)
  {
  }

  lemma SmearWindowBase(x: nat)
    ensures IsOdd(SmearUpTo(x, 0)) <==> AnyBit(x, Pow2(0))
  {
    assert !AnyBit(x / 2, 0);
    assert AnyBit(x, 1) <==> x % 2 == 1;
  }

  lemma SmearWindowStep(x: nat, m: nat, w: nat, y: nat)
    requires m > 0 && w == Pow2(m - 1) && y == SmearUpTo(x, m - 1)
    ensures SmearUpTo(x, m) == SmearStep(y, w) && Pow2(m) == w + w
  {
  }

  /** After `m` steps, a bit is set if one of the `2^m` bits from there upwards was. */
  lemma {:induction false} SmearWindow(x: nat, m: nat)
    ensures IsOdd(SmearUpTo(x, m)) <==> AnyBit(x, Pow2(m))
    decreases m
  {
    hide SmearUpTo, SmearStep, Shr, AnyBit, Pow2, IsOdd;
    if m == 0 {
      SmearWindowBase(x);
    } else {
      var w, y := Pow2(m - 1), SmearUpTo(x, m - 1);
      SmearWindowStep(x, m, w, y);
      SmearWindow(x, m - 1);
      SmearStepHalf(y, w);
      SmearWindowShr(x, m - 1, w);
      SmearWindow(Shr(x, w), m - 1);
      AnyBitSplit(x, w, w);
    }
  }

  lemma {:induction false} SmearWindowShr(x: nat, m: nat, k: nat)
    ensures Shr(SmearUpTo(x, m), k) == SmearUpTo(Shr(x, k), m)
    decreases k
  {
    if k > 0 {
      SmearWindowHalf(x, m);
      SmearWindowShr(x / 2, m, k - 1);
    }
  }

  lemma {:induction false} SmearWindowHalf(x: nat, m: nat)
    ensures SmearUpTo(x / 2, m) == SmearUpTo(x, m) / 2
    decreases m
  {
    if m > 0 {
      SmearWindowHalf(x, m - 1);
      SmearStepHalf(SmearUpTo(x, m - 1), Pow2(m - 1));
    }
  }

  lemma SmallPowersOf2()
    ensures Pow2(0) == 1 && Pow2(1) == 2 && Pow2(2) == 4 && Pow2(3) == 8 && Pow2(4) == 16 && Pow2(5) == 32 && Pow2(6) == 64
    ensures Pow2(8) == 256
  {
  }

  lemma PowersOf2()
    ensures Pow2(61) == FLAG_UNIT && Pow2(63) == 4 * FLAG_UNIT && Pow2(64) == SIZE_LIMIT
  {
    SmallPowersOf2();
    assert Pow2(64) == 2 * Pow2(63) == 4 * Pow2(62) == 8 * Pow2(61);
    hide Pow2;
    Pow2Add(8, 8);
    Pow2Add(16, 16);
    Pow2Add(32, 32);
  }

  lemma {:induction false} Pow2Add(a: nat, b: nat)
    ensures Pow2(a + b) == Pow2(a) * Pow2(b)
    decreases a
  {
    if a > 0 {
      Pow2Add(a - 1, b);
    }
  }

  lemma SmearIsSixSteps(x: nat)
    ensures Smear(x) == SmearUpTo(x, 6)
  {
    SmallPowersOf2();
    assert SmearUpTo(x, 0) == x;
    hide SmearStep, Pow2, SmearUpTo;
    SmearUnfold(x, 1, 1);
    SmearUnfold(x, 2, 2);
    SmearUnfold(x, 3, 4);
    SmearUnfold(x, 4, 8);
    SmearUnfold(x, 5, 16);
    SmearUnfold(x, 6, 32);
  }

  lemma {:induction false} SmearFills(x: nat)
    requires x < Pow2(64)
    ensures SmearUpTo(x, 6) == if x == 0 then 0 else 2 * TopBit(x) - 1
    decreases x
  {
    hide SmearUpTo, Pow2, AnyBit;
    SmallPowersOf2();
    SmearWindow(x, 6);
    SmearWindowHalf(x, 6);
    NonzeroHasBit(x, 64);
    if x > 0 {
      SmearFills(x / 2);
    }
  }

  /** `floor_2p` is the greatest power of two that is not above the argument if the topmost bit is clear, and 0 if it is set. */
  lemma Floor2pIsTopBit(x: nat)
    requires x < SIZE_LIMIT
    ensures Floor2p(x) == if 2 * x < SIZE_LIMIT then TopBit(x) else 0
  {
    hide Smear, SmearUpTo, Pow2, TopBit;
    PowersOf2();
    SmearIsSixSteps(x);
    SmearFills(x);
    ShrOne((Smear(x) + 1) % SIZE_LIMIT);
    if x > 0 {
      TopBitBelowLimit(x);
    } else {
      TopBitOfZero();
    }
  }

  lemma ShrOne(x: nat)
    ensures Shr(x, 1) == x / 2
  {
    assert Shr(x / 2, 0) == x / 2;
  }

  lemma TopBitOfZero()
    ensures TopBit(0) == 0
  {
  }

  lemma TopBitBelowLimit(x: nat)
    requires 0 < x < SIZE_LIMIT
    ensures 2 * x < SIZE_LIMIT ==> 2 * TopBit(x) < SIZE_LIMIT
    ensures 2 * x >= SIZE_LIMIT ==> 2 * TopBit(x) == SIZE_LIMIT
  {
    hide Pow2, TopBit;
    TopBitIsGreatest(x, 63);
    PowersOf2();
    var j: nat :| TopBit(x) == Pow2(j);
    if j >= 64 {
      Pow2Monotone(64, j);
    } else {
      Pow2Monotone(j, 63);
    }
  }

  lemma {:induction false} Pow2Monotone(a: nat, b: nat)
    requires a <= b
    ensures Pow2(a) <= Pow2(b)
    decreases b
  {
    if a < b {
      Pow2Monotone(a, b - 1);
    }
  }

  // ---------- The run-time alignment ----------

  /** What the library assumes of the machine: sizes do not reach into the flag bits, and a page holds cache lines, a large
      page pages. Large pages may be unsupported. */
  predicate Plausible(hw: Hardware) {
    hw.page < FLAG_UNIT && hw.largePage < FLAG_UNIT &&
    hw.constructiveInterference <= hw.cacheLine <= hw.page && (hw.largePage == 0 || hw.page <= hw.largePage)
  }

  lemma {:induction false} OrBelow(x: nat, y: nat, k: nat)
    requires x < Pow2(k) && y < Pow2(k)
    ensures Or(x, y) < Pow2(k)
    decreases k
  {
    if x != 0 && y != 0 {
      OrBelow(x / 2, y / 2, k - 1);
    }
  }

  ghost function Shl(f: nat, k: nat): nat {
    if k == 0 then f else 2 * Shl(f, k - 1)
  }

  lemma {:induction false} ShlIsMultiplication(f: nat, k: nat)
    ensures Shl(f, k) == f * Pow2(k)
    decreases k
  {
    if k > 0 {
      ShlIsMultiplication(f, k - 1);
    }
  }

  lemma {:induction false} OrWithFlags(f: nat, x: nat, y: nat, k: nat)
    requires x < Pow2(k) && y < Pow2(k)
    ensures Or(Shl(f, k) + x, y) == Shl(f, k) + Or(x, y)
    decreases k
  {
    hide Or;
    if k > 0 {
      OrWithFlags(f, x / 2, y / 2, k - 1);
      OrDigits(Shl(f, k - 1), x, y);
    }
  }

  lemma OrDigits(h: nat, x: nat, y: nat)
    requires Or(h + x / 2, y / 2) == h + Or(x / 2, y / 2)
    ensures Or(2 * h + x, y) == 2 * h + Or(x, y)
  {
    hide Or, Max;
    var z := 2 * h + x;
    OrDigit(z, y);
    OrDigit(x, y);
    assert z / 2 == h + x / 2 && z % 2 == x % 2;
  }

  lemma OrDigit(x: nat, y: nat)
    ensures Or(x, y) == 2 * Or(x / 2, y / 2) + Max(x % 2, y % 2)
  {
  }

  /** Adding a size leaves the flags alone. */
  lemma OrKeepsFlags(a: nat, size: nat)
    requires size < FLAG_UNIT
    ensures Flags(Or(a, size)) == Flags(a) && Plain(Or(a, size)) == Or(Plain(a), size)
  {
    hide Or, Pow2, Shl;
    PowersOf2();
    var f, x := Flags(a), Plain(a);
    OrWithFlags(f, x, size, 61);
    ShlIsMultiplication(f, 61);
    OrBelow(x, size, 61);
    assert a == f * FLAG_UNIT + x;
  }

  function LargePart(hw: Hardware, a: nat): nat { if HasLargePage(a) then hw.largePage else 0 }

  function PagePart(hw: Hardware, a: nat): nat { if HasLargePage(a) || HasPage(a) then hw.page else 0 }

  function LinePart(hw: Hardware, a: nat): nat { if HasCacheLine(a) then hw.cacheLine else 0 }

  lemma LookupIsOr(hw: Hardware, a: nat)
    requires Plausible(hw)
    ensures LookupSpecialAlignments(hw, a) == Or(Or(Or(Plain(a), LargePart(hw, a)), PagePart(hw, a)), LinePart(hw, a))
  {
    var a1 := Or(a, LargePart(hw, a));
    var a2 := Or(a1, PagePart(hw, a));
    assert Or(a, 0) == a && Or(a1, 0) == a1 && Or(a2, 0) == a2;
    hide Or;
    OrKeepsFlags(a, LargePart(hw, a));
    OrKeepsFlags(a1, PagePart(hw, a));
    OrKeepsFlags(a2, LinePart(hw, a));
  }

  /** The run-time alignment is the strictest of the plain alignment and those that the flags ask for. */
  lemma DynamicIsMax(hw: Hardware, a: nat)
    requires Plausible(hw)
    ensures AlignmentInBytes(hw, a) ==
            Max(1, Max(Max(Max(TopBit(Plain(a)), TopBit(LargePart(hw, a))), TopBit(PagePart(hw, a))), TopBit(LinePart(hw, a))))
  {
    var b, l, p, c := Plain(a), LargePart(hw, a), PagePart(hw, a), LinePart(hw, a);
    LookupIsOr(hw, a);
    PowersOf2();
    OrBelow(b, l, 61);
    OrBelow(Or(b, l), p, 61);
    OrBelow(Or(Or(b, l), p), c, 61);
    Floor2pIsTopBit(Or(Or(Or(b, l), p), c));
    TopBitOfOr(b, l);
    TopBitOfOr(Or(b, l), p);
    TopBitOfOr(Or(Or(b, l), p), c);
  }

  lemma AlignmentIsPow2(hw: Hardware, a: nat) returns (k: nat)
    ensures AlignmentInBytes(hw, a) == Pow2(k)
  {
    hide Floor2p, LookupSpecialAlignments, TopBit;
    var z := LookupSpecialAlignments(hw, a);
    LookupIsPlain(hw, a);
    Floor2pIsTopBit(z);
    if z == 0 {
      TopBitOfZero();
      k := 0;
    } else {
      TopBitIsGreatest(z, 0);
      k :| TopBit(z) == Pow2(k);
    }
  }

  lemma LookupIsPlain(hw: Hardware, a: nat)
    ensures LookupSpecialAlignments(hw, a) < FLAG_UNIT
  {
    hide Or;
  }

  lemma Pow2Divides(j: nat, k: nat)
    requires Pow2(j) <= Pow2(k)
    ensures Pow2(k) % Pow2(j) == 0
  {
    if j <= k {
      Pow2Add(k - j, j);
      Rounding.MultipleHasNoRemainder(Pow2(k - j), Pow2(j));
    } else {
      Pow2Monotone(k, j);
      Rounding.MultipleHasNoRemainder(1, Pow2(j));
    }
  }

  /** The alignment for a request combined with a plain power of two, such as `alignof(T)`, suits both. */
  lemma CombinedRequestSuitsBoth(hw: Hardware, a: nat, k: nat)
    requires Plausible(hw) && Pow2(k) < FLAG_UNIT
    ensures AlignmentInBytes(hw, Or(a, Pow2(k))) % AlignmentInBytes(hw, a) == 0
    ensures AlignmentInBytes(hw, Or(a, Pow2(k))) % Pow2(k) == 0
  {
    hide Or, TopBit, Pow2, AlignmentInBytes;
    OrKeepsFlags(a, Pow2(k));
    DynamicIsMax(hw, a);
    DynamicIsMax(hw, Or(a, Pow2(k)));
    TopBitOfOr(Plain(a), Pow2(k));
    TopBitIsGreatest(Pow2(k), k);
    var i := AlignmentIsPow2(hw, a);
    var j := AlignmentIsPow2(hw, Or(a, Pow2(k)));
    Pow2Divides(i, j);
    Pow2Divides(k, j);
  }

  // ---------- The static check is sound ----------

  lemma FlagsOrdered(p: nat, r: nat)
    requires r <= p < 8
    ensures r / 4 % 2 == 1 ==> p / 4 % 2 == 1
    ensures r / 4 % 2 == 1 || r / 2 % 2 == 1 ==> p / 4 % 2 == 1 || p / 2 % 2 == 1
    ensures p != 0 ==> p / 4 % 2 == 1 || p / 2 % 2 == 1 || p % 2 == 1
  {
  }

  lemma PartsAreCovered(hw: Hardware, p: nat, r: nat)
    requires Plausible(hw) && p < SIZE_LIMIT && r < SIZE_LIMIT && Flags(p) >= Flags(r)
    ensures TopBit(LargePart(hw, r)) <= TopBit(LargePart(hw, p)) && TopBit(PagePart(hw, r)) <= TopBit(PagePart(hw, p))
    ensures TopBit(LinePart(hw, r)) <= Max(TopBit(PagePart(hw, p)), TopBit(LinePart(hw, p)))
    ensures Flags(p) != 0 ==>
              TopBit(hw.constructiveInterference) <= Max(TopBit(PagePart(hw, p)), TopBit(LinePart(hw, p)))
  {
    TopBitMonotone(hw.cacheLine, hw.page);
    TopBitMonotone(hw.constructiveInterference, hw.cacheLine);
    TopBitMonotone(0, hw.page);
    TopBitMonotone(0, hw.largePage);
    hide TopBit;
    FlagsOrdered(Flags(p), Flags(r));
  }

  /** Whatever the compile-time check accepts, the run-time check accepts, and memory so aligned meets the request. */
  lemma StaticCheckIsSound(hw: Hardware, provided: nat, requested: nat)
    requires Plausible(hw) && provided < SIZE_LIMIT && requested < SIZE_LIMIT
    requires ProvidesStaticAlignment(hw, provided, requested)
    ensures ProvidesDynamicAlignment(hw, provided, requested)
    ensures AlignmentInBytes(hw, provided) % AlignmentInBytes(hw, requested) == 0
  {
    hide TopBit, Floor2p, Or, LargePart, PagePart, LinePart, AlignmentInBytes, Pow2;
    DynamicIsMax(hw, provided);
    DynamicIsMax(hw, requested);
    PartsAreCovered(hw, provided, requested);
    PlainIsCovered(hw, provided, requested);
    var i := AlignmentIsPow2(hw, requested);
    var j := AlignmentIsPow2(hw, provided);
    Pow2Divides(i, j);
  }

  lemma PlainIsCovered(hw: Hardware, p: nat, r: nat)
    requires Plausible(hw) && p < SIZE_LIMIT && r < SIZE_LIMIT && ProvidesStaticAlignment(hw, p, r)
    ensures TopBit(Plain(r)) <= Max(1, Max(TopBit(Plain(p)), if Flags(p) != 0 then TopBit(hw.constructiveInterference) else 0))
  {
    hide TopBit, Floor2p, Or, Pow2;
    var k := hw.constructiveInterference;
    PowersOf2();
    Floor2pIsTopBit(Plain(r));
    Floor2pIsTopBit(Plain(p));
    OrBelow(Plain(p), k, 61);
    Floor2pIsTopBit(Or(Plain(p), k));
    TopBitOfOr(Plain(p), k);
  }

  // ---------- What the checks and the run-time alignment come to, flag by flag ----------

  lemma {:induction false} ShrIsDivision(x: nat, k: nat)
    ensures Shr(x, k) == x / Pow2(k)
    decreases k
  {
    if k > 0 {
      ShrIsDivision(x / 2, k - 1);
      Rounding.DivideTwice(x, 2, Pow2(k - 1));
    }
  }

  ghost predicate Bit(x: nat, k: nat) {
    x / Pow2(k) % 2 == 1
  }

  lemma BitOfHalf(x: nat, k: nat)
    ensures Bit(x, 0) <==> x % 2 == 1
    ensures Bit(x, k + 1) <==> Bit(x / 2, k)
  {
    Rounding.DivideTwice(x, 2, Pow2(k));
  }

  /** A bit of `x | y` is set if and only if it is in one of them. */
  lemma {:induction false} OrBits(x: nat, y: nat, k: nat)
    ensures Or(x, y) / Pow2(k) % 2 == 1 <==> x / Pow2(k) % 2 == 1 || y / Pow2(k) % 2 == 1
    decreases k
  {
    assert Bit(x, k) <==> x / Pow2(k) % 2 == 1;
    assert Bit(y, k) <==> y / Pow2(k) % 2 == 1;
    assert Bit(Or(x, y), k) <==> Or(x, y) / Pow2(k) % 2 == 1;
    OrHalf(x, y);
    hide Bit, Or, Pow2, Max;
    if k == 0 {
      BitOfHalf(x, 0);
      BitOfHalf(y, 0);
      BitOfHalf(Or(x, y), 0);
    } else {
      OrBits(x / 2, y / 2, k - 1);
      BitOfHalf(x, k - 1);
      BitOfHalf(y, k - 1);
      BitOfHalf(Or(x, y), k - 1);
    }
  }

  lemma OrHalf(x: nat, y: nat)
    ensures Or(x, y) / 2 == Or(x / 2, y / 2)
    ensures Or(x, y) % 2 == 1 <==> x % 2 == 1 || y % 2 == 1
  {
    hide Or;
    OrDigit(x, y);
  }

  /** The compile-time check, by values: the plain part provided, or the smallest cache line if any flag is provided, is no weaker
      than the plain part requested, and the flags provided are no weaker than those requested. */
  lemma StaticCheckExactly(hw: Hardware, p: nat, r: nat)
    requires Plausible(hw) && p < SIZE_LIMIT && r < SIZE_LIMIT
    ensures ProvidesStaticAlignment(hw, p, r) <==>
            Max(1, TopBit(r % FLAG_UNIT)) <=
              Max(1, Max(TopBit(p % FLAG_UNIT), if p >= FLAG_UNIT then TopBit(hw.constructiveInterference) else 0)) &&
            p / FLAG_UNIT >= r / FLAG_UNIT
  {
    hide TopBit, Floor2p, Or, Pow2;
    var k := hw.constructiveInterference;
    PowersOf2();
    Floor2pIsTopBit(Plain(r));
    Floor2pIsTopBit(Plain(p));
    OrBelow(Plain(p), k, 61);
    Floor2pIsTopBit(Or(Plain(p), k));
    TopBitOfOr(Plain(p), k);
  }

  /** The run-time check says that memory with the alignment provided meets the one requested. */
  lemma DynamicCheckExactly(hw: Hardware, provided: nat, requested: nat)
    ensures ProvidesDynamicAlignment(hw, provided, requested) <==>
            AlignmentInBytes(hw, provided) % AlignmentInBytes(hw, requested) == 0
  {
    hide AlignmentInBytes, Pow2;
    var i := AlignmentIsPow2(hw, requested);
    var j := AlignmentIsPow2(hw, provided);
    var p, r := AlignmentInBytes(hw, provided), AlignmentInBytes(hw, requested);
    if p >= r {
      Pow2Divides(i, j);
    } else {
      Rounding.DivisionIsUnique(p, r, 0, p);
    }
  }

  lemma FlagBits(f: nat, x: nat)
    requires f < 8 && x < FLAG_UNIT
    ensures var a := f * FLAG_UNIT + x;
            Plain(a) == x && (HasLargePage(a) <==> f >= 4) && (HasPage(a) <==> f / 2 % 2 == 1) && (HasCacheLine(a) <==> f % 2 == 1)
  {
    assert Flags(f * FLAG_UNIT + x) == f;
  }

  /** The run-time alignment for a plain part `x` and flags `f`, with 1 for cache lines, 2 for pages and 4 for large pages:
      large pages ask for pages as well. */
  lemma AlignmentByFlags(hw: Hardware, f: nat, x: nat)
    requires Plausible(hw) && f < 8 && x < FLAG_UNIT
    ensures AlignmentInBytes(hw, f * FLAG_UNIT + x) ==
            Max(1, Max(Max(Max(TopBit(x),
                               if f >= 4 then TopBit(hw.largePage) else 0),
                           if f >= 2 then TopBit(hw.page) else 0),
                       if f % 2 == 1 then TopBit(hw.cacheLine) else 0))
  {
    hide TopBit, AlignmentInBytes, Plain, HasLargePage, HasPage, HasCacheLine, Max;
    TopBitOfZero();
    FlagBits(f, x);
    DynamicIsMax(hw, f * FLAG_UNIT + x);
  }
}
