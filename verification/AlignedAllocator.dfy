/** The adaptor that makes an allocator return aligned memory: it allocates more than asked for, aligns within the block, plants
    trap words behind the payload, and hides the address of the block behind them. */
module AlignedAllocator {
  import opened Basics
  import opened ObjectBytes
  import opened Rounding
  import Alignment

  const SIZE_LIMIT: nat := Alignment.SIZE_LIMIT
  const SIZE_MAX: nat := SIZE_LIMIT - 1
  const POINTER_SIZE: nat := 8
  const WORD_SIZE: nat := 4
  const MAX_TRAP_COUNT: nat := 4
  const TRAP_VAL: nat := 0xDEADBEEF

  // ---------- Trap words ----------

  function TrapCount(size: nat, allocSize: nat): nat
    requires size <= allocSize
  {
    var fit := (allocSize - size) / WORD_SIZE;
    if MAX_TRAP_COUNT <= fit then MAX_TRAP_COUNT else fit
  }

  ghost function Traps(count: nat): (s: seq<Byte>)
    ensures |s| == WORD_SIZE * count
  {
    if count == 0 then [] else Traps(count - 1) + Bytes(TRAP_VAL, WORD_SIZE)
  }

  /** The `room` bytes from `at` onwards begin with as many trap words as fit, four at most. */
  ghost predicate HasTraps(s: seq<Byte>, at: nat, room: nat)
    requires at + room <= |s|
  {
    forall i: nat :: i < 4 && 4 * (i + 1) <= room ==> Value(s[at + 4 * i..at + 4 * (i + 1)]) == 0xDEADBEEF
  }

  /** The byte belongs to one of these words. */
  ghost predicate IsTrapByte(at: nat, room: nat, b: nat) {
    at <= b && (b - at) / 4 < 4 && 4 * ((b - at) / 4 + 1) <= room
  }

  method SetTrap(bytes: array<Byte>, data: nat, size: nat, allocSize: nat)
    requires size <= allocSize && data + allocSize <= bytes.Length
    modifies bytes
    ensures bytes[..] == Splice(old(bytes[..]), data + size, Traps(TrapCount(size, allocSize)))
    ensures HasTraps(bytes[..], data + size, allocSize - size)
    ensures forall b: nat :: b < bytes.Length && !IsTrapByte(data + size, allocSize - size, b) ==> bytes[b] == old(bytes[b])
  {
    hide Splice, Bytes, Traps;
    ghost var was := bytes[..];
    var trapCount := TrapCount(size, allocSize);
    NoTraps(was, data + size);
    for i := 0 to trapCount
      invariant bytes[..] == Splice(was, data + size, Traps(i))
    {
      Store(bytes, data + size + i * WORD_SIZE, TRAP_VAL, WORD_SIZE);
      NextTrap(was, data + size, i);
    }
    TrapsArePlanted(was, bytes[..], data, size, allocSize);
  }

  lemma {:induction false} TrapsUpTo(s: seq<Byte>, at: nat, count: nat)
    requires at + WORD_SIZE * count <= |s|
    ensures s[at..at + WORD_SIZE * count] == Traps(count) <==>
            forall i: nat :: i < count ==> Value(s[at + 4 * i..at + 4 * (i + 1)]) == TRAP_VAL
    decreases count
  {
    hide Bytes, Value, Power256;
    if count > 0 {
      var i := count - 1;
      TrapsUpTo(s, at, i);
      OneMoreTrap(s, at, i);
    }
  }

  lemma OneMoreTrap(s: seq<Byte>, at: nat, i: nat)
    requires at + WORD_SIZE * (i + 1) <= |s|
    ensures s[at..at + WORD_SIZE * (i + 1)] == Traps(i + 1) <==>
            s[at..at + WORD_SIZE * i] == Traps(i) && Value(s[at + 4 * i..at + 4 * (i + 1)]) == TRAP_VAL
  {
    hide Bytes, Value, Power256;
    var word := s[at + 4 * i..at + 4 * (i + 1)];
    assert s[at..at + WORD_SIZE * (i + 1)] == s[at..at + WORD_SIZE * i] + word;
    PowersOf256();
    SameWordSameBytes(word, TRAP_VAL);
    assert Traps(i + 1)[..WORD_SIZE * i] == Traps(i) && Traps(i + 1)[WORD_SIZE * i..] == Bytes(TRAP_VAL, WORD_SIZE);
  }

  lemma TrapsAreWords(s: seq<Byte>, at: nat, room: nat, count: nat)
    requires at + room <= |s| && count == if 4 <= room / 4 then 4 else room / 4
    ensures s[at..at + WORD_SIZE * count] == Traps(count) <==> HasTraps(s, at, room)
  {
    hide Traps, Value;
    TrapsUpTo(s, at, count);
  }

  lemma TrapsArePlanted(s: seq<Byte>, t: seq<Byte>, data: nat, size: nat, allocSize: nat)
    requires size <= allocSize && data + allocSize <= |s|
    requires t == Splice(s, data + size, Traps(TrapCount(size, allocSize)))
    ensures HasTraps(t, data + size, allocSize - size)
    ensures forall b: nat :: b < |s| && !IsTrapByte(data + size, allocSize - size, b) ==> t[b] == s[b]
  {
    hide Splice, Traps, HasTraps;
    var at, room, count := data + size, allocSize - size, TrapCount(size, allocSize);
    SpliceChanges(s, at, Traps(count));
    TrapsAreWords(t, at, room, count);
    forall b: nat | b < |s| && !IsTrapByte(at, room, b) ensures t[b] == s[b] {
      if at <= b < at + WORD_SIZE * count {
        WordOfByte(at, room, count, b);
      }
    }
  }

  lemma TrapsFit(size: nat, allocSize: nat)
    requires size <= allocSize
    ensures TrapCount(size, allocSize) == if 4 <= (allocSize - size) / 4 then 4 else (allocSize - size) / 4
    ensures WORD_SIZE * TrapCount(size, allocSize) <= allocSize - size
  {
  }

  lemma WordOfByte(at: nat, room: nat, count: nat, b: nat)
    requires count == (if 4 <= room / 4 then 4 else room / 4) && at <= b < at + WORD_SIZE * count
    ensures IsTrapByte(at, room, b)
  {
  }

  lemma NoTraps(s: seq<Byte>, at: nat)
    requires at <= |s|
    ensures Splice(s, at, Traps(0)) == s
  {
  }

  lemma NextTrap(s: seq<Byte>, at: nat, i: nat)
    requires at + WORD_SIZE * (i + 1) <= |s|
    ensures Splice(Splice(s, at, Traps(i)), at + i * WORD_SIZE, Bytes(TRAP_VAL, WORD_SIZE)) == Splice(s, at, Traps(i + 1))
  {
    hide Splice;
    SpliceTwice(s, at, Traps(i), Bytes(TRAP_VAL, WORD_SIZE));
  }

  /** The check accepts exactly if every byte of every trap word is as it was written. */
  method CheckTrap(bytes: array<Byte>, data: nat, size: nat, allocSize: nat) returns (ok: bool)
    requires size <= allocSize && data + allocSize <= bytes.Length
    ensures ok <==> bytes[data + size..data + size + WORD_SIZE * TrapCount(size, allocSize)] == Traps(TrapCount(size, allocSize))
    ensures ok <==> HasTraps(bytes[..], data + size, allocSize - size)
  {
    hide Bytes, Value, Traps, Power256, HasTraps, TrapCount;
    var trapCount := TrapCount(size, allocSize);
    TrapsFit(size, allocSize);
    TrapsAreWords(bytes[..], data + size, allocSize - size, trapCount);
    ghost var s := bytes[data + size..data + size + WORD_SIZE * trapCount];
    assert s[..0] == Traps(0) == [];
    for i := 0 to trapCount
      invariant s[..WORD_SIZE * i] == Traps(i)
    {
      var observed := Load(bytes, data + size + i * WORD_SIZE, WORD_SIZE);
      SliceOfSlice(bytes[..], data + size, WORD_SIZE * trapCount, WORD_SIZE * i, WORD_SIZE);
      OneMoreTrap(s, 0, i);
      if observed != TRAP_VAL {
        TrapsPrefix(i + 1, trapCount);
        return false;
      }
    }
    assert s[..WORD_SIZE * trapCount] == s;
    return true;
  }

  lemma SliceOfSlice(s: seq<Byte>, at: nat, size: nat, from: nat, k: nat)
    requires at + size <= |s| && from + k <= size
    ensures s[at..at + size][from..from + k] == s[at + from..at + from + k]
  {
    var t, u := s[at..at + size][from..from + k], s[at + from..at + from + k];
    assert forall j :: 0 <= j < k ==> t[j] == u[j];
  }

  lemma {:induction false} TrapsPrefix(i: nat, count: nat)
    requires i <= count
    ensures Traps(count)[..WORD_SIZE * i] == Traps(i)
    decreases count
  {
    if i < count {
      TrapsPrefix(i, count - 1);
      assert Traps(count)[..WORD_SIZE * i] == Traps(count - 1)[..WORD_SIZE * i];
    }
  }

  // ---------- Layout of a block ----------

  /** `sizeof(T)` and the run-time alignment. */
  datatype Element = Element(size: nat, alignment: nat)

  predicate WellFormed(e: Element) {
    e.size >= 1 && 1 <= e.alignment < SIZE_LIMIT / 2
  }

  /** The plain mathematical size of a block for `n` elements: padding, payload, two trap words, a pointer. */
  function BlockSize(e: Element, n: nat): nat {
    n * e.size + e.alignment + POINTER_SIZE - 1 + 2 * WORD_SIZE
  }

  function TryBlockSize(e: Element, n: nat): Option<nat>
    requires WellFormed(e)
  {
    if n >= SIZE_MAX / e.size then None
    else
      var nbData := n * e.size % SIZE_LIMIT;
      var nbAlloc := (nbData + e.alignment + POINTER_SIZE - 1 + 2 * WORD_SIZE) % SIZE_LIMIT;
      if nbAlloc < nbData then None else Some(nbAlloc)
  }

  /** What `Deallocate` computes for an accepted request. */
  lemma AcceptedSizes(e: Element, n: nat)
    requires WellFormed(e) && TryBlockSize(e, n).Some?
    ensures n * e.size < SIZE_LIMIT
    ensures (n * e.size + e.alignment + POINTER_SIZE - 1 + 2 * WORD_SIZE) % SIZE_LIMIT == BlockSize(e, n)
  {
    OverflowChecksAreExact(e, n);
  }

  lemma MultiplyBound(n: nat, size: nat, max: nat)
    requires size >= 1
    ensures n >= max / size <==> (n + 1) * size > max
  {
    var q := max / size;
    assert max == q * size + max % size;
    if n >= q {
      assert (n + 1) * size >= (q + 1) * size == q * size + size;
    } else {
      assert (n + 1) * size <= q * size;
    }
  }

  /** Both overflow checks together are exact, up to one spare element: a request is accepted exactly if one element more than
      asked for, and the block, have representable sizes. An accepted request gets its mathematical size. */
  lemma OverflowChecksAreExact(e: Element, n: nat)
    requires WellFormed(e)
    ensures TryBlockSize(e, n).Some? <==> (n + 1) * e.size <= SIZE_MAX && BlockSize(e, n) <= SIZE_MAX
    ensures TryBlockSize(e, n).Some? ==> TryBlockSize(e, n).value == BlockSize(e, n)
  {
    var nbData := n * e.size;
    MultiplyBound(n, e.size, SIZE_MAX);
    Distribute(n, 1, e.size);
    if nbData + e.size <= SIZE_MAX {
      NoWrap(nbData);
      WrapIsDetected(nbData, e.alignment + POINTER_SIZE - 1 + 2 * WORD_SIZE);
    }
  }

  lemma NoWrap(x: nat)
    requires x < SIZE_LIMIT
    ensures x % SIZE_LIMIT == x
  {
  }

  lemma WrapIsDetected(x: nat, d: nat)
    requires x < SIZE_LIMIT && d < SIZE_LIMIT
    ensures (x + d) % SIZE_LIMIT < x <==> x + d > SIZE_MAX
    ensures x + d <= SIZE_MAX ==> (x + d) % SIZE_LIMIT == x + d
  {
    if x + d > SIZE_MAX {
      assert (x + d) % SIZE_LIMIT == x + d - SIZE_LIMIT;
    }
  }

  /** No smaller block would do: for some base address the trailer would not fit. */
  lemma BlockSizeIsLeast(e: Element, n: nat, size: nat) returns (base: nat)
    requires WellFormed(e) && size < BlockSize(e, n)
    ensures RoundUp(base, e.alignment) + n * e.size + 2 * WORD_SIZE + POINTER_SIZE > base + size
  {
    base := 1;
    if e.alignment == 1 {
      RoundUpIsLeast(1, 1, 1);
    } else {
      DivisionIsUnique(1, e.alignment, 0, 1);
      DivisionIsUnique(e.alignment - 1, e.alignment, 0, e.alignment - 1);
    }
  }

  /** `std::align`: moves `ptr` up within `space` bytes, or fails if `size` bytes then no longer fit. */
  function Align(alignment: nat, size: nat, ptr: nat, space: nat): Option<(nat, nat)>
    requires alignment >= 1
  {
    var padding := RoundUp(ptr, alignment) - ptr;
    if padding + size > space then None else Some((ptr + padding, space - padding))
  }

  /** `std::align` succeeds exactly if the space reaches from `ptr` to the end of `size` bytes at some aligned address, and then
      yields the least such address and the space from there. */
  lemma AlignExactly(alignment: nat, size: nat, ptr: nat, space: nat, p: nat)
    requires alignment >= 1 && ptr <= p && p % alignment == 0
    ensures p + size <= ptr + space ==> Align(alignment, size, ptr, space).Some?
    ensures match Align(alignment, size, ptr, space)
            case Some((q, left)) => q % alignment == 0 && ptr <= q <= p && q + left == ptr + space && size <= left
            case None => ptr + space < p + size
  {
    hide RoundUp;
    RoundUpIsLeast(ptr, alignment, p);
  }

  // ---------- What the adaptor knows about its blocks ----------

  /** `count` elements within the block at `base`. */
  datatype Chunk = Chunk(count: nat, base: nat)

  type Blocks = map<nat, nat>

  type Chunks = map<nat, Chunk>

  const GUARD_SIZE: nat := 2 * WORD_SIZE + POINTER_SIZE

  /** What follows a payload: trap words, then the address of the block. */
  ghost function Guard(base: nat): (s: seq<Byte>)
    ensures |s| == GUARD_SIZE
  {
    Traps(2) + Bytes(base, POINTER_SIZE)
  }

  ghost function PayloadEnd(e: Element, p: nat, c: Chunk): (end: nat)
    ensures end >= p
  {
    p + c.count * e.size
  }

  ghost function Trailer(e: Element, s: seq<Byte>, p: nat, c: Chunk): seq<Byte>
    requires PayloadEnd(e, p, c) + GUARD_SIZE <= |s|
  {
    s[PayloadEnd(e, p, c)..PayloadEnd(e, p, c) + GUARD_SIZE]
  }

  /** The inner allocator's blocks, by address: within memory and pairwise disjoint. */
  ghost predicate Separate(blocks: Blocks, memorySize: nat) {
    (forall b :: b in blocks ==> b + blocks[b] <= memorySize) &&
    (forall b, c :: b in blocks && c in blocks && b != c ==> b + blocks[b] <= c || c + blocks[c] <= b)
  }

  ghost predicate Owns(e: Element, blocks: Blocks, p: nat, c: Chunk)
    requires WellFormed(e)
  {
    TryBlockSize(e, c.count).Some? && c.base in blocks && blocks[c.base] == BlockSize(e, c.count) &&
    p == RoundUp(c.base, e.alignment)
  }

  ghost predicate Consistent(e: Element, memorySize: nat, blocks: Blocks, live: Chunks) {
    WellFormed(e) && memorySize <= SIZE_LIMIT && Separate(blocks, memorySize) &&
    forall p :: p in live ==> Owns(e, blocks, p, live[p])
  }

  /** Every chunk's trailer is as the adaptor planted it. */
  ghost predicate Intact(e: Element, s: seq<Byte>, live: Chunks) {
    forall p :: p in live ==>
      PayloadEnd(e, p, live[p]) + GUARD_SIZE <= |s| && Trailer(e, s, p, live[p]) == Guard(live[p].base)
  }

  ghost predicate IsPayload(e: Element, live: Chunks, i: nat) {
    exists p :: p in live && p <= i < PayloadEnd(e, p, live[p])
  }

  /** Padding, payload and trailer exactly fit into the block in the worst case. */
  lemma ChunkFits(e: Element, base: nat, n: nat)
    requires WellFormed(e)
    ensures var p := RoundUp(base, e.alignment);
            p % e.alignment == 0 && base <= p && PayloadEnd(e, p, Chunk(n, base)) + GUARD_SIZE <= base + BlockSize(e, n)
  {
    RoundUpIsLeast(base, e.alignment, 0);
  }

  /** The payload has room for all elements, one after the other, and ends where the last one does. */
  lemma ElementsFillPayload(e: Element, p: nat, c: Chunk, k: nat)
    ensures k < c.count ==> p + k * e.size + e.size <= PayloadEnd(e, p, c)
    ensures k + 1 == c.count ==> p + k * e.size + e.size == PayloadEnd(e, p, c)
    ensures c.count == 0 ==> PayloadEnd(e, p, c) == p
  {
    ProductGap(k, c.count, e.size);
    Distribute(k, 1, e.size);
  }

  /** Two chunks share no byte, not even one of their trailers. */
  lemma ChunksAreDisjoint(e: Element, memorySize: nat, blocks: Blocks, live: Chunks, p: nat, q: nat)
    requires Consistent(e, memorySize, blocks, live) && p in live && q in live && p != q
    ensures PayloadEnd(e, p, live[p]) + GUARD_SIZE <= q || PayloadEnd(e, q, live[q]) + GUARD_SIZE <= p
  {
    hide BlockSize, RoundUp, TryBlockSize, PayloadEnd;
    assert Owns(e, blocks, p, live[p]) && Owns(e, blocks, q, live[q]);
    ChunkFits(e, live[p].base, live[p].count);
    ChunkFits(e, live[q].base, live[q].count);
  }

  /** Whatever the owners write into their payloads, no trailer changes. */
  lemma PayloadWritesKeepTrailers(e: Element, s: seq<Byte>, t: seq<Byte>, blocks: Blocks, live: Chunks)
    requires Consistent(e, |s|, blocks, live) && Intact(e, s, live) && |t| == |s|
    requires forall i: nat :: i < |s| && !IsPayload(e, live, i) ==> t[i] == s[i]
    ensures Intact(e, t, live)
  {
    hide PayloadEnd, Guard;
    forall q | q in live
      ensures Trailer(e, t, q, live[q]) == Guard(live[q].base)
    {
      var end := PayloadEnd(e, q, live[q]);
      forall i | end <= i < end + GUARD_SIZE
        ensures t[i] == s[i]
      {
        TrailerIsNoPayload(e, |s|, blocks, live, q, i);
      }
      assert Trailer(e, t, q, live[q]) == Trailer(e, s, q, live[q]);
    }
  }

  lemma TrailerIsNoPayload(e: Element, memorySize: nat, blocks: Blocks, live: Chunks, q: nat, i: nat)
    requires Consistent(e, memorySize, blocks, live) && q in live
    requires PayloadEnd(e, q, live[q]) <= i < PayloadEnd(e, q, live[q]) + GUARD_SIZE
    ensures !IsPayload(e, live, i)
  {
    hide Consistent;
    if IsPayload(e, live, i) {
      var p :| p in live && p <= i < PayloadEnd(e, p, live[p]);
      if p != q {
        ChunksAreDisjoint(e, memorySize, blocks, live, p, q);
      }
      assert false;
    }
  }

  lemma NewChunkIsConsistent(e: Element, memorySize: nat, blocks: Blocks, live: Chunks, n: nat, base: nat)
    requires Consistent(e, memorySize, blocks, live) && TryBlockSize(e, n).Some?
    requires base + BlockSize(e, n) <= memorySize && base !in blocks
    requires forall b :: b in blocks ==> b + blocks[b] <= base || base + BlockSize(e, n) <= b
    ensures var p, c := RoundUp(base, e.alignment), Chunk(n, base);
            p !in live && Consistent(e, memorySize, blocks[base := BlockSize(e, n)], live[p := c])
  {
    hide BlockSize, RoundUp, TryBlockSize, PayloadEnd;
    var p, c := RoundUp(base, e.alignment), Chunk(n, base);
    ChunkFits(e, base, n);
    if p in live {
      assert Owns(e, blocks, p, live[p]);
      ChunkFits(e, live[p].base, live[p].count);
      assert false;
    }
    var blocks', live' := blocks[base := BlockSize(e, n)], live[p := c];
    forall q | q in live'
      ensures Owns(e, blocks', q, live'[q])
    {
      assert q != p ==> Owns(e, blocks, q, live[q]);
    }
  }

  /** Planting the trailer of a new chunk damages no other. */
  lemma PlantingKeepsTrailers(e: Element, s: seq<Byte>, blocks: Blocks, live: Chunks, p: nat, c: Chunk)
    requires p !in live && Consistent(e, |s|, blocks, live[p := c]) && Intact(e, s, live)
    requires PayloadEnd(e, p, c) + GUARD_SIZE <= |s|
    ensures Intact(e, Splice(s, PayloadEnd(e, p, c), Guard(c.base)), live[p := c])
  {
    hide PayloadEnd, Guard, Splice, Consistent;
    var live' := live[p := c];
    var end := PayloadEnd(e, p, c);
    var t := Splice(s, end, Guard(c.base));
    SpliceChanges(s, end, Guard(c.base));
    forall q | q in live'
      ensures PayloadEnd(e, q, live'[q]) + GUARD_SIZE <= |t| && Trailer(e, t, q, live'[q]) == Guard(live'[q].base)
    {
      if q != p {
        ChunksAreDisjoint(e, |s|, blocks, live', p, q);
        assert Trailer(e, t, q, live[q]) == Trailer(e, s, q, live[q]);
      }
    }
  }

  /** The round trip: after a new trailer has been planted and payloads have been written at will, every trailer reads as planted,
      so each deallocation passes the trap check and finds its block. */
  lemma RoundTrip(e: Element, s: seq<Byte>, t: seq<Byte>, blocks: Blocks, live: Chunks, n: nat, base: nat)
    requires Consistent(e, |s|, blocks, live) && Intact(e, s, live) && TryBlockSize(e, n).Some?
    requires base + BlockSize(e, n) <= |s| == |t| && base !in blocks
    requires forall b :: b in blocks ==> b + blocks[b] <= base || base + BlockSize(e, n) <= b
    requires var p, c := RoundUp(base, e.alignment), Chunk(n, base);
             PayloadEnd(e, p, c) + GUARD_SIZE <= |s| &&
             var planted := Splice(s, PayloadEnd(e, p, c), Guard(base));
             forall i: nat :: i < |s| && !IsPayload(e, live[p := c], i) ==> t[i] == planted[i]
    ensures Intact(e, t, live[RoundUp(base, e.alignment) := Chunk(n, base)])
    ensures Trailer(e, t, RoundUp(base, e.alignment), Chunk(n, base)) == Guard(base)
    ensures forall q :: q in live ==> PayloadEnd(e, q, live[q]) + GUARD_SIZE <= |t|
    ensures forall q :: q in live && q != RoundUp(base, e.alignment) ==> Trailer(e, t, q, live[q]) == Guard(live[q].base)
  {
    hide Separate, Owns, RoundUp, BlockSize, TryBlockSize, PayloadEnd, Guard, Splice, IsPayload;
    var p, c := RoundUp(base, e.alignment), Chunk(n, base);
    NewChunkIsConsistent(e, |s|, blocks, live, n, base);
    PlantingKeepsTrailers(e, s, blocks[base := BlockSize(e, n)], live, p, c);
    var live' := live[p := c];
    PayloadWritesKeepTrailers(e, Splice(s, PayloadEnd(e, p, c), Guard(base)), t, blocks[base := BlockSize(e, n)], live');
    assert p in live' && live'[p] == c && forall q :: q in live && q != p ==> q in live' && live'[q] == live[q];
  }

  lemma OwnedChunk(e: Element, memorySize: nat, blocks: Blocks, live: Chunks, p: nat)
    requires Consistent(e, memorySize, blocks, live) && p in live
    ensures WellFormed(e) && Owns(e, blocks, p, live[p])
    ensures PayloadEnd(e, p, live[p]) + GUARD_SIZE <= memorySize && live[p].base < memorySize <= SIZE_LIMIT
  {
    hide BlockSize, RoundUp, TryBlockSize, PayloadEnd;
    ChunkFits(e, live[p].base, live[p].count);
  }

  lemma OldChunk(e: Element, s: seq<Byte>, blocks: Blocks, live: Chunks, p: nat)
    requires Consistent(e, |s|, blocks, live) && p in live
    ensures Consistent(e, |s|, blocks - {live[p].base}, live - {p}) && (Intact(e, s, live) ==> Intact(e, s, live - {p}))
  {
    hide BlockSize, RoundUp, TryBlockSize, PayloadEnd, Guard;
    var blocks', live' := blocks - {live[p].base}, live - {p};
    forall q | q in live'
      ensures Owns(e, blocks', q, live'[q])
    {
      assert Owns(e, blocks, q, live[q]) && Owns(e, blocks, p, live[p]);
    }
    if Intact(e, s, live) {
      forall q | q in live'
        ensures PayloadEnd(e, q, live'[q]) + GUARD_SIZE <= |s| && Trailer(e, s, q, live'[q]) == Guard(live'[q].base)
      {
      }
    }
  }

  /** Reading a trailer back. */
  lemma TrailerParts(s: seq<Byte>, at: nat, base: nat, word: nat)
    requires at + GUARD_SIZE <= |s| && base < SIZE_LIMIT
    requires word == Value(s[at + 2 * WORD_SIZE..at + GUARD_SIZE])
    ensures s[at..at + 2 * WORD_SIZE] == s[at..at + GUARD_SIZE][..2 * WORD_SIZE]
    ensures s[at + 2 * WORD_SIZE..at + GUARD_SIZE] == s[at..at + GUARD_SIZE][2 * WORD_SIZE..]
    ensures s[at..at + GUARD_SIZE] == Guard(base) <==> s[at..at + 2 * WORD_SIZE] == Traps(2) && word == base
  {
    var trailer := s[at..at + GUARD_SIZE];
    assert trailer == s[at..at + 2 * WORD_SIZE] + s[at + 2 * WORD_SIZE..at + GUARD_SIZE];
    PowersOf256();
    SameWordSameBytes(s[at + 2 * WORD_SIZE..at + GUARD_SIZE], base);
    assert Guard(base)[..2 * WORD_SIZE] == Traps(2) && Guard(base)[2 * WORD_SIZE..] == Bytes(base, POINTER_SIZE);
  }

  // ---------- The adaptor ----------

  datatype Release = FailFast | Released(base: nat, size: nat)

  class Adaptor {
    const e: Element
    const bytes: array<Byte>
    ghost var blocks: Blocks
    ghost var live: Chunks

    constructor (hw: Alignment.Hardware, alignment: nat, sizeOfT: nat, alignOfT: nat, bytes: array<Byte>)
      requires sizeOfT >= 1 && bytes.Length <= SIZE_LIMIT
      ensures this.bytes == bytes && e == Element(sizeOfT, Alignment.AlignmentInBytes(hw, Alignment.Or(alignment, alignOfT)))
      ensures blocks == map[] && live == map[] && Valid() && Sound()
    {
      Alignment.AlignmentIsBounded(hw, Alignment.Or(alignment, alignOfT));
      e := Element(sizeOfT, Alignment.AlignmentInBytes(hw, Alignment.Or(alignment, alignOfT)));
      this.bytes := bytes;
      blocks := map[];
      live := map[];
    }

    ghost predicate Valid()
      reads this
    {
      Consistent(e, bytes.Length, blocks, live)
    }

    ghost predicate Sound()
      reads this, bytes
    {
      Intact(e, bytes[..], live)
    }

    /** The inner allocator may place a block there. */
    ghost predicate Fits(base: nat, size: nat)
      reads this
    {
      base + size <= bytes.Length && base !in blocks &&
      forall b :: b in blocks ==> b + blocks[b] <= base || base + size <= b
    }

    /** `place` stands for the inner allocator, which may fail. */
    method Allocate(n: nat, place: nat -> Option<nat>) returns (r: Option<nat>)
      requires Valid()
      requires forall size :: place(size).Some? ==> Fits(place(size).value, size)
      modifies this, bytes
      ensures Valid() && (old(Sound()) ==> Sound())
      ensures r.Some? <==> TryBlockSize(e, n).Some? && place(BlockSize(e, n)).Some?
      ensures r.None? ==> bytes[..] == old(bytes[..]) && blocks == old(blocks) && live == old(live)
      ensures r.Some? ==>
                var base := place(BlockSize(e, n)).value;
                r.value == RoundUp(base, e.alignment) && r.value !in old(live) &&
                live == old(live)[r.value := Chunk(n, base)] && blocks == old(blocks)[base := BlockSize(e, n)] &&
                PayloadEnd(e, r.value, Chunk(n, base)) + GUARD_SIZE <= bytes.Length &&
                bytes[..] == Splice(old(bytes[..]), PayloadEnd(e, r.value, Chunk(n, base)), Guard(base))
    {
      hide Traps, Bytes, Splice, Separate, Intact, Owns;
      var a := e.alignment;
      OverflowChecksAreExact(e, n);
      if n >= SIZE_MAX / e.size { return None; }
      var nbData := n * e.size % SIZE_LIMIT;
      var nbAlloc := (nbData + a + POINTER_SIZE - 1 + 2 * WORD_SIZE) % SIZE_LIMIT;
      if nbAlloc < nbData { return None; }
      var placed := place(nbAlloc);
      if placed.None? { return None; }
      var mem := placed.value;
      ChunkFits(e, mem, n);
      ghost var s, p, c := bytes[..], RoundUp(mem, a), Chunk(n, mem);
      NewChunkIsConsistent(e, |s|, blocks, live, n, mem);
      if Sound() { PlantingKeepsTrailers(e, s, blocks[mem := nbAlloc], live, p, c); }
      blocks := blocks[mem := nbAlloc];
      match Align(a, nbData + POINTER_SIZE, mem, nbAlloc) {
        case None => assert false;
        case Some((alignedMem, space)) =>
          assert space >= nbData + POINTER_SIZE;
          Store(bytes, alignedMem + nbData + 2 * WORD_SIZE, mem, POINTER_SIZE);
          SetTrap(bytes, alignedMem, nbData, nbData + 2 * WORD_SIZE);
          SpliceTwice(s, alignedMem + nbData, Traps(2), Bytes(mem, POINTER_SIZE));
          live := live[alignedMem := Chunk(n, mem)];
          return Some(alignedMem);
      }
    }

    /** The program ends if a trap word has changed. Otherwise the block whose address is in the trailer is released. */
    method Deallocate(p: nat, n: nat) returns (r: Release)
      requires Valid() && p in live && live[p].count == n
      modifies `blocks, `live
      ensures PayloadEnd(e, p, Chunk(n, 0)) + GUARD_SIZE <= bytes.Length
      ensures r.FailFast? <==> Trailer(e, bytes[..], p, Chunk(n, 0))[..2 * WORD_SIZE] != Traps(2)
      ensures r.FailFast? ==> blocks == old(blocks) && live == old(live)
      ensures r.Released? ==> r == Released(Value(Trailer(e, bytes[..], p, Chunk(n, 0))[2 * WORD_SIZE..]), BlockSize(e, n))
      ensures Trailer(e, bytes[..], p, Chunk(n, 0)) == Guard(old(live)[p].base) ==>
                r == Released(old(live)[p].base, old(blocks)[old(live)[p].base]) &&
                blocks == old(blocks) - {old(live)[p].base} && live == old(live) - {p} &&
                Valid() && (old(Sound()) ==> Sound())
    {
      hide Traps, Bytes, Consistent, Intact, RoundUp, Value, Power256, Guard, TryBlockSize, BlockSize;
      ghost var c := live[p];
      OwnedChunk(e, bytes.Length, blocks, live, p);
      AcceptedSizes(e, n);
      var nbData := n * e.size % SIZE_LIMIT;
      assert nbData == n * e.size;
      var nbAlloc := (nbData + e.alignment + POINTER_SIZE - 1 + 2 * WORD_SIZE) % SIZE_LIMIT;
      var mem := Load(bytes, p + nbData + 2 * WORD_SIZE, POINTER_SIZE);
      var ok := CheckTrap(bytes, p, nbData, nbData + 2 * WORD_SIZE);
      TrailerParts(bytes[..], p + nbData, c.base, mem);
      if !ok { return FailFast; }
      OldChunk(e, bytes[..], blocks, live, p);
      blocks := blocks - {mem};
      live := live - {p};
      return Released(mem, nbAlloc);
    }
  }
}
