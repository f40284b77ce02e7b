/** Overflow-checked arithmetic and the two-dimensional buffer with aligned rows. */
module RowBuffer {
  import opened Basics
  import opened Rounding
  import opened AlignedAllocator

  // ---------- Checked arithmetic ----------

  datatype ArithmeticResult = ArithmeticResult(value: nat, tooLarge: bool)

  function TryMultiplyUnsigned(a: nat, b: nat): ArithmeticResult {
    if b > 0 && a > SIZE_MAX / b then ArithmeticResult(0, true)
    else ArithmeticResult(a * b % SIZE_LIMIT, false)
  }

  function TryCeili(x: nat, d: nat): ArithmeticResult
    requires 1 <= d <= SIZE_MAX
  {
    if x == 0 then ArithmeticResult(0, false)
    else
      var dx := d - (x - 1) % d - 1;
      if x > SIZE_MAX - dx then ArithmeticResult(0, true) else ArithmeticResult((x + dx) % SIZE_LIMIT, false)
  }

  lemma MultiplyIsExact(a: nat, b: nat)
    ensures TryMultiplyUnsigned(a, b) == if a * b <= SIZE_MAX then ArithmeticResult(a * b, false) else ArithmeticResult(0, true)
  {
    if b > 0 {
      var q := SIZE_MAX / b;
      assert SIZE_MAX == q * b + SIZE_MAX % b;
      Distribute(q, 1, b);
      ProductGap(q, a, b);
      ProductGap(a, q, b);
    }
  }

  /** The least multiple of `d` from `x` onwards, or an error exactly if that is not representable. */
  lemma CeiliIsExact(x: nat, d: nat)
    requires 1 <= d <= SIZE_MAX
    ensures TryCeili(x, d) == if RoundUp(x, d) <= SIZE_MAX then ArithmeticResult(RoundUp(x, d), false) else ArithmeticResult(0, true)
  {
    if x == 0 {
      DivisionIsUnique(0, d, 0, 0);
      Padding(0, d);
    } else {
      var p, r := (x - 1) / d, (x - 1) % d;
      assert x - 1 == p * d + r;
      Distribute(p, 1, d);
      var q := RoundUpQuotient(x, d);
      ProductGap(q, p + 1, d);
      ProductGap(p + 1, q, d);
      assert RoundUp(x, d) == x + (d - r - 1);
    }
  }

  // ---------- Layout ----------

  /** `cols` elements of `size` bytes in each row of `bytesPerRow` bytes. */
  datatype Grid = Grid(size: nat, cols: nat, bytesPerRow: nat)

  ghost predicate RowsFit(g: Grid) {
    g.size >= 1 && g.cols >= 1 && g.cols * g.size <= g.bytesPerRow
  }

  /** The grid, and how many bytes it needs; nothing if one of the three computations reports an error. */
  function TryLayout(e: Element, rows: nat, cols: nat): Option<(Grid, nat)>
    requires WellFormed(e)
  {
    var rawBytesPerRow := TryMultiplyUnsigned(e.size, cols);
    var bytesPerRow := TryCeili(rawBytesPerRow.value, e.alignment);
    var numBytes := TryMultiplyUnsigned(rows, bytesPerRow.value);
    if rawBytesPerRow.tooLarge || bytesPerRow.tooLarge || numBytes.tooLarge then None
    else Some((Grid(e.size, cols, bytesPerRow.value), numBytes.value))
  }

  /** A layout is found exactly if its true size is representable, and then has the least aligned row size. */
  lemma LayoutIsExact(e: Element, rows: nat, cols: nat)
    requires WellFormed(e)
    ensures var bytesPerRow := RoundUp(e.size * cols, e.alignment);
            TryLayout(e, rows, cols) ==
            if bytesPerRow <= SIZE_MAX && rows * bytesPerRow <= SIZE_MAX
            then Some((Grid(e.size, cols, bytesPerRow), rows * bytesPerRow)) else None
  {
    hide TryMultiplyUnsigned, TryCeili, RoundUp;
    MultiplyIsExact(e.size, cols);
    var raw := TryMultiplyUnsigned(e.size, cols).value;
    CeiliIsExact(raw, e.alignment);
    MultiplyIsExact(rows, TryCeili(raw, e.alignment).value);
    RoundUpIsLeast(e.size * cols, e.alignment, 0);
  }

  lemma LayoutRowsFit(e: Element, rows: nat, cols: nat)
    requires WellFormed(e) && cols >= 1 && TryLayout(e, rows, cols).Some?
    ensures RowsFit(TryLayout(e, rows, cols).value.0)
  {
    hide TryLayout, RoundUp;
    LayoutIsExact(e, rows, cols);
    RoundUpIsLeast(e.size * cols, e.alignment, 0);
  }

  /** Where the `k`-th element in row-major order is. */
  function Address(g: Grid, data: nat, k: nat): nat
    requires g.cols >= 1
  {
    data + k / g.cols * g.bytesPerRow + k % g.cols * g.size
  }

  lemma AddressOfCell(g: Grid, data: nat, i: nat, j: nat)
    requires j < g.cols
    ensures Address(g, data, i * g.cols + j) == data + i * g.bytesPerRow + j * g.size
  {
    DivisionIsUnique(i * g.cols + j, g.cols, i, j);
  }

  lemma CellsAreOrdered(cols: nat, k: nat, l: nat)
    requires cols >= 1 && k < l
    ensures k / cols < l / cols || (k / cols == l / cols && k % cols < l % cols)
  {
    var i, i' := k / cols, l / cols;
    assert k == i * cols + k % cols && l == i' * cols + l % cols;
    ProductGap(i', i, cols);
  }

  lemma OffsetsAreOrdered(g: Grid, i: nat, j: nat, i': nat, j': nat)
    requires RowsFit(g) && j < g.cols && (i < i' || (i == i' && j < j'))
    ensures i * g.bytesPerRow + j * g.size + g.size <= i' * g.bytesPerRow + j' * g.size
  {
    if i < i' {
      ProductGap(j, g.cols, g.size);
      ProductGap(i, i', g.bytesPerRow);
    } else {
      ProductGap(j, j', g.size);
    }
  }

  /** Elements follow each other without overlap. */
  lemma ElementsAreDisjoint(g: Grid, data: nat, k: nat, l: nat)
    requires RowsFit(g) && k < l
    ensures Address(g, data, k) + g.size <= Address(g, data, l)
  {
    CellsAreOrdered(g.cols, k, l);
    OffsetsAreOrdered(g, k / g.cols, k % g.cols, l / g.cols, l % g.cols);
  }

  lemma ElementIsInBlock(g: Grid, data: nat, rows: nat, k: nat)
    requires RowsFit(g) && k < rows * g.cols
    ensures data <= Address(g, data, k) && Address(g, data, k) + g.size <= data + rows * g.bytesPerRow
  {
    OffsetsAreOrdered(g, k / g.cols, k % g.cols, rows, 0);
  }

  lemma RowsAreAligned(e: Element, rows: nat, cols: nat, data: nat, i: nat)
    requires WellFormed(e) && cols >= 1 && TryLayout(e, rows, cols).Some? && data % e.alignment == 0
    ensures Address(TryLayout(e, rows, cols).value.0, data, i * cols) % e.alignment == 0
  {
    hide TryLayout, RoundUp;
    LayoutIsExact(e, rows, cols);
    var g := TryLayout(e, rows, cols).value.0;
    AddressOfCell(g, data, i, 0);
    var q := RoundUpQuotient(e.size * cols, e.alignment);
    var p := data / e.alignment;
    assert data == p * e.alignment + data % e.alignment;
    assert i * (q * e.alignment) == (i * q) * e.alignment;
    Distribute(p, i * q, e.alignment);
    MultipleHasNoRemainder(p + i * q, e.alignment);
  }

  // ---------- Construction and destruction ----------

  /** What the buffer asks of its allocator and of its element type. */
  datatype Event =
    | Allocated(data: nat, size: nat)
    | Constructed(address: nat)
    | Destroyed(address: nat)
    | Freed(data: nat, size: nat)

  ghost function Constructions(g: Grid, data: nat, k: nat): seq<Event>
    requires g.cols >= 1
  {
    if k == 0 then [] else Constructions(g, data, k - 1) + [Constructed(Address(g, data, k - 1))]
  }

  ghost function Destructions(g: Grid, data: nat, k: nat): seq<Event>
    requires g.cols >= 1
  {
    if k == 0 then [] else Destructions(g, data, k - 1) + [Destroyed(Address(g, data, k - 1))]
  }

  /** The `k`-th event is about the `k`-th element: rows one after the other, and in each row column after column. */
  lemma {:induction false} EventsAreInOrder(g: Grid, data: nat, count: nat, k: nat)
    requires g.cols >= 1 && k < count
    ensures |Constructions(g, data, count)| == |Destructions(g, data, count)| == count
    ensures Constructions(g, data, count)[k] == Constructed(Address(g, data, k))
    ensures Destructions(g, data, count)[k] == Destroyed(Address(g, data, k))
    decreases count
  {
    EventsAreCounted(g, data, count - 1);
    hide Address;
    if k < count - 1 {
      EventsAreInOrder(g, data, count - 1, k);
    }
  }

  lemma {:induction false} EventsAreCounted(g: Grid, data: nat, count: nat)
    requires g.cols >= 1
    ensures |Constructions(g, data, count)| == |Destructions(g, data, count)| == count
    decreases count
  {
    hide Address;
    if count > 0 {
      EventsAreCounted(g, data, count - 1);
    }
  }

  /** `Threw(k)`: the constructor of the `k`-th element threw. */
  datatype Outcome = Ready | BadAlloc | Threw(k: nat)

  class AlignedRowBuffer {
    const e: Element
    var data: Option<nat>
    var rows: nat
    var cols: nat
    var bytesPerRow: nat
    var events: seq<Event>

    constructor (e: Element)
      ensures this.e == e && data == None && rows == cols == bytesPerRow == 0 && events == []
    {
      this.e := e;
      data := None;
      rows, cols, bytesPerRow := 0, 0, 0;
      events := [];
    }

    /** The constructor of element `k` throws if `throws(k)`. */
    method ConstructElements(g: Grid, data: nat, rows: nat, throws: nat -> bool)
      returns (numElementsConstructed: nat, threw: bool)
      requires RowsFit(g)
      modifies `events
      ensures events == old(events) + Constructions(g, data, numElementsConstructed)
      ensures numElementsConstructed <= rows * g.cols && forall k :: 0 <= k < numElementsConstructed ==> !throws(k)
      ensures if threw then numElementsConstructed < rows * g.cols && throws(numElementsConstructed)
              else numElementsConstructed == rows * g.cols
    {
      hide Address;
      numElementsConstructed, threw := 0, false;
      var i, end := 0, rows * g.bytesPerRow;
      ghost var row := 0;
      while i != end
        invariant row <= rows && i == row * g.bytesPerRow && numElementsConstructed == row * g.cols
        invariant events == old(events) + Constructions(g, data, numElementsConstructed)
        invariant forall k :: 0 <= k < numElementsConstructed ==> !throws(k)
        decreases rows - row
      {
        NextRow(g, row, rows);
        var j := 0;
        while j != g.cols
          invariant j <= g.cols && numElementsConstructed == row * g.cols + j
          invariant events == old(events) + Constructions(g, data, numElementsConstructed)
          invariant forall k :: 0 <= k < numElementsConstructed ==> !throws(k)
          decreases g.cols - j
        {
          if throws(numElementsConstructed) { return numElementsConstructed, true; }
          AddressOfCell(g, data, row, j);
          events := events + [Constructed(data + i + j * g.size)];
          numElementsConstructed := numElementsConstructed + 1;
          j := j + 1;
        }
        i := i + g.bytesPerRow;
        row := row + 1;
      }
      LastRow(g, row, rows);
    }

    /** Destroys every element. */
    method DestroyElements(g: Grid, data: nat, rows: nat)
      requires RowsFit(g)
      modifies `events
      ensures events == old(events) + Destructions(g, data, rows * g.cols)
    {
      hide Address;
      var i, end := 0, rows * g.bytesPerRow;
      ghost var row := 0;
      while i != end
        invariant row <= rows && i == row * g.bytesPerRow
        invariant events == old(events) + Destructions(g, data, row * g.cols)
        decreases rows - row
      {
        NextRow(g, row, rows);
        var j := 0;
        while j != g.cols
          invariant j <= g.cols
          invariant events == old(events) + Destructions(g, data, row * g.cols + j)
          decreases g.cols - j
        {
          AddressOfCell(g, data, row, j);
          events := events + [Destroyed(data + i + j * g.size)];
          j := j + 1;
        }
        i := i + g.bytesPerRow;
        row := row + 1;
      }
      LastRow(g, row, rows);
    }

    /** Destroys the elements that have been constructed. */
    method DestroyConstructed(g: Grid, data: nat, rows: nat, numElementsConstructed: nat)
      requires RowsFit(g)
      modifies `events
      ensures events == old(events) + Destructions(g, data, Min(numElementsConstructed, rows * g.cols))
    {
      hide Address;
      var remaining: nat := numElementsConstructed;
      var i, end := 0, rows * g.bytesPerRow;
      ghost var row := 0;
      while i != end
        invariant row <= rows && i == row * g.bytesPerRow && remaining + row * g.cols == numElementsConstructed
        invariant events == old(events) + Destructions(g, data, row * g.cols)
        decreases rows - row
      {
        NextRow(g, row, rows);
        var j := 0;
        while j != g.cols
          invariant j <= g.cols && remaining + row * g.cols + j == numElementsConstructed
          invariant events == old(events) + Destructions(g, data, row * g.cols + j)
          decreases g.cols - j
        {
          if remaining == 0 { return; }
          remaining := remaining - 1;
          AddressOfCell(g, data, row, j);
          events := events + [Destroyed(data + i + j * g.size)];
          j := j + 1;
        }
        i := i + g.bytesPerRow;
        row := row + 1;
      }
      LastRow(g, row, rows);
    }

    /** The constructor proper; `place` stands for the allocator, which may fail. */
    method Construct(rows: nat, cols: nat, place: nat -> Option<nat>, throws: nat -> bool) returns (r: Outcome)
      requires WellFormed(e)
      modifies this
      ensures var layout := TryLayout(e, rows, cols);
              if layout.None? || (rows > 0 && cols > 0 && place(layout.value.1).None?) then
                r == BadAlloc && events == old(events)
              else if rows == 0 || cols == 0 then
                r == Ready && this.rows == rows && this.cols == cols && data == None && events == old(events)
              else
                var g, size, base := layout.value.0, layout.value.1, place(layout.value.1).value;
                var before := old(events) + [Allocated(base, size)];
                match r
                case BadAlloc => false
                case Ready =>
                  this.rows == rows && this.cols == cols && bytesPerRow == g.bytesPerRow && data == Some(base) && (forall k :: 0 <= k < rows * cols ==> !throws(k)) &&
                  events == before + Constructions(g, base, rows * cols)
                case Threw(k) =>
                  k < rows * cols && throws(k) && (forall j :: 0 <= j < k ==> !throws(j)) &&
                  events == before + Constructions(g, base, k) + Destructions(g, base, k) + [Freed(base, size)]
    {
      hide RoundUp, Address, Constructions, Destructions;
      this.rows, this.cols := rows, cols;
      LayoutIsExact(e, rows, cols);
      var rawBytesPerRowR := TryMultiplyUnsigned(e.size, cols);
      var bytesPerRowR := TryCeili(rawBytesPerRowR.value, e.alignment);
      var numBytesR := TryMultiplyUnsigned(rows, bytesPerRowR.value);
      if rawBytesPerRowR.tooLarge || bytesPerRowR.tooLarge || numBytesR.tooLarge { return BadAlloc; }
      bytesPerRow := bytesPerRowR.value;
      if rows == 0 || cols == 0 {
        data := None;
        return Ready;
      }
      data := place(numBytesR.value);
      if data.None? { return BadAlloc; }
      events := events + [Allocated(data.value, numBytesR.value)];
      LayoutRowsFit(e, rows, cols);
      var g := Grid(e.size, cols, bytesPerRow);
      var k, threw := ConstructElements(g, data.value, rows, throws);
      if threw {
        DestroyConstructed(g, data.value, rows, k);
        events := events + [Freed(data.value, rows * bytesPerRow)];
        return Threw(k);
      }
      return Ready;
    }

    /** What the destructor and a move assignment do with the old contents. */
    method DestroyAndFree()
      requires data.Some? && RowsFit(Grid(e.size, cols, bytesPerRow))
      modifies `events
      ensures events == old(events) + Destructions(Grid(e.size, cols, bytesPerRow), data.value, rows * cols)
                        + [Freed(data.value, rows * bytesPerRow)]
    {
      DestroyElements(Grid(e.size, cols, bytesPerRow), data.value, rows);
      events := events + [Freed(data.value, rows * bytesPerRow)];
    }
  }

  lemma NextRow(g: Grid, row: nat, rows: nat)
    requires row <= rows && row * g.bytesPerRow != rows * g.bytesPerRow
    ensures row < rows && (row + 1) * g.bytesPerRow == row * g.bytesPerRow + g.bytesPerRow
    ensures (row + 1) * g.cols == row * g.cols + g.cols <= rows * g.cols
  {
    Distribute(row, 1, g.bytesPerRow);
    Distribute(row, 1, g.cols);
    ProductGap(row, rows, g.cols);
  }

  lemma LastRow(g: Grid, row: nat, rows: nat)
    requires RowsFit(g) && row <= rows && row * g.bytesPerRow == rows * g.bytesPerRow
    ensures row == rows
  {
    ProductGap(0, g.cols, g.size);
    ProductGap(row, rows, g.bytesPerRow);
  }

  // ---------- A failed construction leaves nothing behind ----------

  ghost predicate IsAmongFirst(g: Grid, data: nat, k: nat, address: nat)
    requires g.cols >= 1
  {
    exists i: nat :: i < k && Address(g, data, i) == address
  }

  lemma IsAmongOneMore(g: Grid, data: nat, k: nat, address: nat)
    requires RowsFit(g)
    ensures IsAmongFirst(g, data, k + 1, address) <==> IsAmongFirst(g, data, k, address) || Address(g, data, k) == address
    ensures !(IsAmongFirst(g, data, k, address) && Address(g, data, k) == address)
  {
    hide Address;
    if IsAmongFirst(g, data, k, address) && Address(g, data, k) == address {
      var i: nat :| i < k && Address(g, data, i) == address;
      ElementsAreDisjoint(g, data, i, k);
      assert false;
    }
    if Address(g, data, k) == address {
      assert IsAmongFirst(g, data, k + 1, address);
    }
  }

  ghost function Occurrences(events: seq<Event>, event: Event): nat {
    multiset(events)[event]
  }

  lemma OccurrencesAppend(s: seq<Event>, t: seq<Event>, event: Event)
    ensures Occurrences(s + t, event) == Occurrences(s, event) + Occurrences(t, event)
  {
  }

  lemma OccurrencesSingle(event: Event, other: Event)
    ensures Occurrences([event], other) == if event == other then 1 else 0
  {
  }

  lemma {:induction false} EventsAreDistinct(g: Grid, data: nat, k: nat, event: Event)
    requires RowsFit(g)
    ensures Occurrences(Constructions(g, data, k), event) ==
            if event.Constructed? && IsAmongFirst(g, data, k, event.address) then 1 else 0
    ensures Occurrences(Destructions(g, data, k), event) ==
            if event.Destroyed? && IsAmongFirst(g, data, k, event.address) then 1 else 0
    decreases k
  {
    hide Occurrences, Address, IsAmongFirst;
    if k > 0 {
      EventsAreDistinct(g, data, k - 1, event);
      var last := Address(g, data, k - 1);
      OccurrencesAppend(Constructions(g, data, k - 1), [Constructed(last)], event);
      OccurrencesAppend(Destructions(g, data, k - 1), [Destroyed(last)], event);
      OccurrencesSingle(Constructed(last), event);
      OccurrencesSingle(Destroyed(last), event);
      if event.Constructed? || event.Destroyed? {
        IsAmongOneMore(g, data, k - 1, event.address);
      }
    } else {
      NoneAmongNone(g, data, event);
    }
  }

  lemma NoneAmongNone(g: Grid, data: nat, event: Event)
    requires g.cols >= 1
    ensures Occurrences([], event) == 0
    ensures event.Constructed? || event.Destroyed? ==> !IsAmongFirst(g, data, 0, event.address)
  {
  }

  /** If element `k` throws, exactly the elements before it are destroyed, each once, where they were constructed, and the block is
      freed with the size it was allocated with. */
  lemma RollbackIsBalanced(g: Grid, data: nat, size: nat, k: nat, address: nat, d: nat, n: nat)
    requires RowsFit(g)
    ensures var events := [Allocated(data, size)] + Constructions(g, data, k) + Destructions(g, data, k) + [Freed(data, size)];
            var once := if IsAmongFirst(g, data, k, address) then 1 else 0;
            Occurrences(events, Constructed(address)) == once == Occurrences(events, Destroyed(address)) &&
            Occurrences(events, Allocated(d, n)) == Occurrences(events, Freed(d, n)) == if (d, n) == (data, size) then 1 else 0
  {
    OccurrencesInRollback(g, data, size, k, Constructed(address));
    OccurrencesInRollback(g, data, size, k, Destroyed(address));
    OccurrencesInRollback(g, data, size, k, Allocated(d, n));
    OccurrencesInRollback(g, data, size, k, Freed(d, n));
  }

  /** A buffer that is constructed and later destroyed: every element is constructed once and destroyed once, at its own address,
      and the block is freed once with the size it was allocated with. */
  lemma LifetimeIsBalanced(e: Element, rows: nat, cols: nat, data: nat, address: nat, d: nat, n: nat)
    requires WellFormed(e) && cols >= 1 && TryLayout(e, rows, cols).Some?
    ensures var g, size := TryLayout(e, rows, cols).value.0, TryLayout(e, rows, cols).value.1;
            var events := [Allocated(data, size)] + Constructions(g, data, rows * cols)
                          + (Destructions(g, data, rows * cols) + [Freed(data, rows * g.bytesPerRow)]);
            var once := if IsAmongFirst(g, data, rows * cols, address) then 1 else 0;
            Occurrences(events, Constructed(address)) == once == Occurrences(events, Destroyed(address)) &&
            Occurrences(events, Allocated(d, n)) == Occurrences(events, Freed(d, n)) == if (d, n) == (data, size) then 1 else 0
  {
    hide TryLayout, RoundUp, Occurrences, Constructions, Destructions, IsAmongFirst;
    LayoutIsExact(e, rows, cols);
    LayoutRowsFit(e, rows, cols);
    var g, size := TryLayout(e, rows, cols).value.0, TryLayout(e, rows, cols).value.1;
    var made, destroyed, last := Constructions(g, data, rows * cols), Destructions(g, data, rows * cols), [Freed(data, size)];
    assert [Allocated(data, size)] + made + destroyed + last == [Allocated(data, size)] + made + (destroyed + last);
    RollbackIsBalanced(g, data, size, rows * cols, address, d, n);
  }

  lemma OccurrencesInRollback(g: Grid, data: nat, size: nat, k: nat, event: Event)
    requires RowsFit(g)
    ensures Occurrences([Allocated(data, size)] + Constructions(g, data, k) + Destructions(g, data, k) + [Freed(data, size)], event) ==
            if event.Constructed? || event.Destroyed? then (if IsAmongFirst(g, data, k, event.address) then 1 else 0)
            else if (event.data, event.size) == (data, size) then 1 else 0
  {
    hide Occurrences, Constructions, Destructions, IsAmongFirst;
    var first, made, destroyed, last := [Allocated(data, size)], Constructions(g, data, k), Destructions(g, data, k), [Freed(data, size)];
    OccurrencesAppend(first, made, event);
    OccurrencesAppend(first + made, destroyed, event);
    OccurrencesAppend(first + made + destroyed, last, event);
    OccurrencesSingle(Allocated(data, size), event);
    OccurrencesSingle(Freed(data, size), event);
    EventsAreDistinct(g, data, k, event);
  }
}
