// The human output format: plain lines with an optional "[time] [iteration] "
// prefix, and three cell tables (register bytes, coil bits, scan values).
// Cells are kept as values; ANSI colouring is reduced to the three-way
// classification of scan values.

module HumanFormatter {
  import opened Wrappers
  import opened JavaText
  import opened ScanCommand
  import opened OutputCommon

  /** The colour of a scan value: one reading, several equal readings,
      readings that disagree. */
  datatype Colour = Green | Yellow | Red

  datatype Cell =
    | NoByte
    | ByteCell(b: bv8)
    | NoBit
    | BitCell(on: bool)
    | NoValue
    | ValueCell(address: int, reading: Reading, colour: Option<Colour>)

  function CellText(c: Cell): string {
    match c
    case NoByte => ".. "
    case ByteCell(b) => Hex(b as int, 2) + " "
    case NoBit => ". "
    case BitCell(on) => if on then "1 " else "0 "
    case NoValue => ".... "
    case ValueCell(_, r, _) => Hex(r.hi as int, 2) + Hex(r.lo as int, 2) + " "
  }

  function CellsText(cells: seq<Cell>): string {
    if |cells| == 0 then "" else CellText(cells[0]) + CellsText(cells[1..])
  }

  /** One printed row: the offset or address its label shows, and its cells. */
  datatype Row = Row(start: int, cells: seq<Cell>)

  datatype TableKind = RegisterTable | CoilTable | ScanTable

  /** The two header lines of each table (`%n` taken as a line feed). */
  function TableHeader(kind: TableKind): seq<string> {
    match kind
    case RegisterTable => ["Offset (hex)\tBytes (hex)", Repeat("-", 25)]
    case CoilTable => ["Address    Bits", Repeat("-", 10) + " " + Repeat("-", 15)]
    case ScanTable => ["Address \tValues (hex, 2 bytes each)", Repeat("-", 55)]
  }

  function RowLabel(kind: TableKind, start: int): string {
    match kind
    case RegisterTable => Hex(start, 8) + "\t"
    case CoilTable => "0x" + Hex(start, 4) + "     "
    case ScanTable => Hex(start, 4) + "    \t"
  }

  /** The printed lines of a table. */
  function TableLines(kind: TableKind, rows: seq<Row>): (lines: seq<string>)
    ensures |lines| == 2 + |rows|
  {
    TableHeader(kind) + seq(|rows|, i requires 0 <= i < |rows| => RowLabel(kind, rows[i].start) + CellsText(rows[i].cells))
  }

  // ---------------------------------------------------------------------
  // The line prefix
  // ---------------------------------------------------------------------

  /** `getTimestampPrefix`: `[time] [iteration] ` while an iteration is set,
      nothing otherwise. */
  function TimestampPrefix(display: string, iteration: Option<int>): (prefix: string)
    ensures prefix != "" <==> iteration.Some?
    ensures iteration.Some? ==> prefix[0] == '[' && prefix[|prefix| - 1] == ' '
  {
    if iteration.Some? then "[" + display + "] [" + IntToString(iteration.value) + "] " else ""
  }

  // ---------------------------------------------------------------------
  // Rows aligned to a fixed width
  // ---------------------------------------------------------------------

  /** What a register or coil table shows: the register bytes from absolute
      byte offset `startByte`, or the unpacked coils from `startAddress`. */
  datatype Source = Registers(registers: seq<bv8>, startByte: int) | Coils(bits: seq<bool>, startAddress: int)

  /** The cell at absolute byte offset or coil address `pos`: the value
      stored there, or a filler outside the range the source covers. */
  function CellAt(src: Source, pos: int): Cell {
    match src
    case Registers(registers, startByte) =>
      if pos < startByte || pos > startByte + |registers| - 1 then NoByte
      else ByteCell(registers[pos - startByte])
    case Coils(bits, startAddress) =>
      if pos < startAddress || pos > startAddress + |bits| - 1 then NoBit
      else BitCell(bits[pos - startAddress])
  }

  /** The cells of positions `lo .. hi - 1`. */
  function Span(src: Source, lo: int, hi: int): (cells: seq<Cell>)
    ensures |cells| == if lo < hi then hi - lo else 0
    decreases hi - lo
  {
    if lo >= hi then [] else [CellAt(src, lo)] + Span(src, lo + 1, hi)
  }

  lemma {:induction false} SpanIndex(src: Source, lo: int, hi: int, i: int)
    requires 0 <= i < hi - lo
    ensures Span(src, lo, hi)[i] == CellAt(src, lo + i)
    decreases hi - lo
  {
    if i > 0 {
      SpanIndex(src, lo + 1, hi, i - 1);
    }
  }

  lemma {:induction false} SpanConcat(src: Source, lo: int, mid: int, hi: int)
    requires lo <= mid <= hi
    ensures Span(src, lo, hi) == Span(src, lo, mid) + Span(src, mid, hi)
    decreases mid - lo
  {
    if lo < mid {
      SpanConcat(src, lo + 1, mid, hi);
    }
  }

  /** The rows of `for (row = first; row <= last; row += width)`, each
      showing the `width` positions from its start. */
  function GridRows(src: Source, first: int, last: int, width: nat): seq<Row>
    requires width > 0
    decreases last - first + width
  {
    if first > last then [] else [Row(first, Span(src, first, first + width))] + GridRows(src, first + width, last, width)
  }

  /** The position just past those rows. */
  function GridStop(first: int, last: int, width: nat): int
    requires width > 0
    decreases last - first + width
  {
    if first > last then first else GridStop(first + width, last, width)
  }

  /** Every cell of a table, row after row. */
  function AllCells(rows: seq<Row>): seq<Cell> {
    if |rows| == 0 then [] else rows[0].cells + AllCells(rows[1..])
  }

  /** The rows, read cell by cell, cover the positions from the first row's
      start onward, in order and without gaps. */
  lemma {:induction false} GridCells(src: Source, first: int, last: int, width: nat)
    requires width > 0
    ensures first <= GridStop(first, last, width)
    ensures AllCells(GridRows(src, first, last, width)) == Span(src, first, GridStop(first, last, width))
    decreases last - first + width
  {
    if first <= last {
      var rows := GridRows(src, first, last, width);
      GridCells(src, first + width, last, width);
      assert rows[1..] == GridRows(src, first + width, last, width);
      SpanConcat(src, first, first + width, GridStop(first + width, last, width));
    }
  }

  /** When `last` is a row start, the rows end exactly one row past it. */
  lemma {:induction false} GridEnd(first: int, last: int, width: nat)
    requires width == 8 || width == 16
    requires first <= last && (last - first) % width == 0
    ensures GridStop(first, last, width) == last + width
    decreases last - first + width
  {
    ModStep(last - first - width, width);
    if first + width <= last {
      GridEnd(first + width, last, width);
    }
  }

  /** Steps of one row width keep the remainder; a multiple of the width
      below the width is zero. */
  lemma {:induction false} ModStep(x: int, w: int)
    requires w == 8 || w == 16
    ensures (x + w) % w == x % w
    ensures 0 <= x + w < w && (x + w) % w == 0 ==> x + w == 0
  {
    if w == 8 {
    } else {
    }
  }

  /** Every row has `width` cells, the first starts at `first` and each
      next one `width` further. */
  lemma {:induction false} GridShape(src: Source, first: int, last: int, width: nat)
    requires width > 0
    ensures var rows := GridRows(src, first, last, width);
      && (first <= last ==> |rows| >= 1 && rows[0].start == first)
      && (forall r :: 0 <= r < |rows| ==> |rows[r].cells| == width)
      && (forall r :: 0 <= r < |rows| - 1 ==> rows[r + 1].start == rows[r].start + width)
    decreases last - first + width
  {
    if first <= last {
      var rows := GridRows(src, first, last, width);
      var rest := GridRows(src, first + width, last, width);
      GridShape(src, first + width, last, width);
      assert rows == [Row(first, Span(src, first, first + width))] + rest;
      forall r | 1 <= r < |rows|
        ensures rows[r] == rest[r - 1]
      {
      }
    }
  }

  /** For the two widths in use, rows that start aligned stay aligned. */
  lemma {:induction false} GridAligned(src: Source, first: int, last: int, width: nat)
    requires (width == 8 || width == 16) && first % width == 0
    ensures forall r :: 0 <= r < |GridRows(src, first, last, width)| ==> GridRows(src, first, last, width)[r].start % width == 0
    decreases last - first + width
  {
    if first <= last {
      var rows := GridRows(src, first, last, width);
      var rest := GridRows(src, first + width, last, width);
      ModStep(first, width);
      GridAligned(src, first + width, last, width);
      assert rows == [Row(first, Span(src, first, first + width))] + rest;
      forall r | 0 <= r < |rows|
        ensures rows[r].start % width == 0
      {
        if r > 0 {
          assert rows[r] == rest[r - 1];
        }
      }
    }
  }

  /** One pass of a row loop: the printed prefix grows by the next row. */
  lemma {:induction false} GridStep(src: Source, row: int, last: int, width: nat, printed: seq<Row>, cells: seq<Cell>)
    requires width > 0 && row <= last && |cells| == width
    requires forall p :: 0 <= p < width ==> cells[p] == CellAt(src, row + p)
    ensures printed + GridRows(src, row, last, width)
      == (printed + [Row(row, cells)]) + GridRows(src, row + width, last, width)
  {
    forall p | 0 <= p < width
      ensures cells[p] == Span(src, row, row + width)[p]
    {
      SpanIndex(src, row, row + width, p);
    }
    assert cells == Span(src, row, row + width);
  }

  /** Past the last start no row is left to print. */
  lemma GridDone(src: Source, row: int, last: int, width: nat, printed: seq<Row>)
    requires width > 0 && row > last
    ensures printed + GridRows(src, row, last, width) == printed
  {
    assert GridRows(src, row, last, width) == [];
  }

  function Clamp(x: int, len: nat): nat {
    if x < 0 then 0 else if x > len then len else x
  }

  // ---------------------------------------------------------------------
  // Register table
  // ---------------------------------------------------------------------

  /** The rows of `formatRegisterTable`, from the 16-aligned offset of the
      first byte to that of the last, with Java's truncating division. */
  function RegisterRows(registers: seq<bv8>, startAddress: int): seq<Row> {
    var startByte := startAddress * 2;
    var endByte := startByte + |registers| - 1;
    GridRows(Registers(registers, startByte), JavaDiv(startByte, 16) * 16, JavaDiv(endByte, 16) * 16, 16)
  }

  function ByteValues(cells: seq<Cell>): seq<bv8> {
    if |cells| == 0 then []
    else (if cells[0].ByteCell? then [cells[0].b] else []) + ByteValues(cells[1..])
  }

  /** The byte cells of a span are the register bytes it overlaps. */
  lemma {:induction false} ByteSpan(registers: seq<bv8>, startByte: int, lo: int, hi: int)
    requires lo <= hi
    ensures ByteValues(Span(Registers(registers, startByte), lo, hi))
      == registers[Clamp(lo - startByte, |registers|)..Clamp(hi - startByte, |registers|)]
    decreases hi - lo
  {
    var src := Registers(registers, startByte);
    if lo < hi {
      ByteSpan(registers, startByte, lo + 1, hi);
      var cells := Span(src, lo, hi);
      assert cells[0] == CellAt(src, lo) && cells[1..] == Span(src, lo + 1, hi);
      assert ByteValues(cells) == (if cells[0].ByteCell? then [cells[0].b] else []) + ByteValues(cells[1..]);
      var a := Clamp(lo - startByte, |registers|);
      if 0 <= lo - startByte < |registers| {
        assert registers[a..Clamp(hi - startByte, |registers|)]
          == [registers[a]] + registers[a + 1..Clamp(hi - startByte, |registers|)];
      } else {
        assert a == Clamp(lo + 1 - startByte, |registers|);
      }
    }
  }

  /** A span that starts at or before the first byte and reaches past the
      last shows every register byte once, in order. */
  lemma {:induction false} ByteSpanAll(registers: seq<bv8>, startByte: int, lo: int, hi: int)
    requires lo <= startByte && startByte + |registers| <= hi
    ensures ByteValues(Span(Registers(registers, startByte), lo, hi)) == registers
  {
    ByteSpan(registers, startByte, lo, hi);
    assert registers[0..|registers|] == registers;
  }

  /** Rows are 16 cells wide and 16-aligned, start at the row holding the
      first byte and follow each other at 16-byte steps. */
  lemma {:induction false} RegisterRowsLayout(registers: seq<bv8>, startAddress: int)
    ensures var rows := RegisterRows(registers, startAddress);
      && (|registers| > 0 ==> |rows| >= 1 && rows[0].start == JavaDiv(2 * startAddress, 16) * 16)
      && (forall r :: 0 <= r < |rows| ==> |rows[r].cells| == 16 && rows[r].start % 16 == 0)
      && (forall r :: 0 <= r < |rows| - 1 ==> rows[r + 1].start == rows[r].start + 16)
  {
    var startByte := startAddress * 2;
    var endByte := startByte + |registers| - 1;
    var q0, q1 := JavaDiv(startByte, 16), JavaDiv(endByte, 16);
    if |registers| > 0 {
      JavaDivMonotone16(startByte, endByte);
    }
    MultipleMod(q0, 16);
    GridShape(Registers(registers, startByte), q0 * 16, q1 * 16, 16);
    GridAligned(Registers(registers, startByte), q0 * 16, q1 * 16, 16);
  }

  /** For a non-negative start address the in-range cells, read row by row,
      list every register byte exactly once and in order. */
  lemma {:induction false} RegisterBytesInOrder(registers: seq<bv8>, startAddress: int)
    requires startAddress >= 0
    ensures ByteValues(AllCells(RegisterRows(registers, startAddress))) == registers
  {
    var startByte := startAddress * 2;
    var endByte := startByte + |registers| - 1;
    var q0, q1 := JavaDiv(startByte, 16), JavaDiv(endByte, 16);
    var first, last := q0 * 16, q1 * 16;
    GridCells(Registers(registers, startByte), first, last, 16);
    JavaDivBounds16(startByte);
    JavaDivBounds16(endByte);
    if |registers| > 0 {
      JavaDivMonotone16(startByte, endByte);
      assert last - first == (q1 - q0) * 16;
      MultipleMod(q1 - q0, 16);
      GridEnd(first, last, 16);
      ByteSpanAll(registers, startByte, first, GridStop(first, last, 16));
    } else {
      ByteSpan(registers, startByte, first, GridStop(first, last, 16));
    }
  }

  /** Truncating division keeps the order of numbers. */
  lemma {:induction false} JavaDivMonotone16(a: int, b: int)
    requires a <= b
    ensures JavaDiv(a, 16) <= JavaDiv(b, 16)
  {
  }

  lemma {:induction false} JavaDivMonotone8(a: int, b: int)
    requires a <= b
    ensures JavaDiv(a, 8) <= JavaDiv(b, 8)
  {
  }

  /** A row start computed by truncating division is at most 15 below a
      number >= -15, and never above a non-negative one. */
  lemma {:induction false} JavaDivBounds16(a: int)
    ensures a >= -15 ==> JavaDiv(a, 16) * 16 <= a + 15 && JavaDiv(a, 16) * 16 >= a - 15
    ensures a >= 0 ==> JavaDiv(a, 16) * 16 <= a
  {
  }

  lemma {:induction false} JavaDivBounds8(a: int)
    ensures a >= -7 ==> JavaDiv(a, 8) * 8 <= a + 7 && JavaDiv(a, 8) * 8 >= a - 7
    ensures a >= 0 ==> JavaDiv(a, 8) * 8 <= a
  {
  }

  lemma {:induction false} MultipleMod(x: int, w: int)
    requires w == 8 || w == 16
    ensures (x * w) % w == 0
  {
  }

  // ---------------------------------------------------------------------
  // Coil table
  // ---------------------------------------------------------------------

  /** The rows of `formatCoilTable`, 8-aligned, with Java's truncating
      division. */
  function CoilRows(bits: seq<bool>, startAddress: int): seq<Row> {
    var endAddress := startAddress + |bits| - 1;
    GridRows(Coils(bits, startAddress), JavaDiv(startAddress, 8) * 8, JavaDiv(endAddress, 8) * 8, 8)
  }

  function BitValues(cells: seq<Cell>): seq<bool> {
    if |cells| == 0 then []
    else (if cells[0].BitCell? then [cells[0].on] else []) + BitValues(cells[1..])
  }

  /** The bit cells of a span are the coils it overlaps. */
  lemma {:induction false} BitSpan(bits: seq<bool>, startAddress: int, lo: int, hi: int)
    requires lo <= hi
    ensures BitValues(Span(Coils(bits, startAddress), lo, hi))
      == bits[Clamp(lo - startAddress, |bits|)..Clamp(hi - startAddress, |bits|)]
    decreases hi - lo
  {
    var src := Coils(bits, startAddress);
    if lo < hi {
      BitSpan(bits, startAddress, lo + 1, hi);
      var cells := Span(src, lo, hi);
      assert cells[0] == CellAt(src, lo) && cells[1..] == Span(src, lo + 1, hi);
      assert BitValues(cells) == (if cells[0].BitCell? then [cells[0].on] else []) + BitValues(cells[1..]);
      var a := Clamp(lo - startAddress, |bits|);
      if 0 <= lo - startAddress < |bits| {
        assert bits[a..Clamp(hi - startAddress, |bits|)]
          == [bits[a]] + bits[a + 1..Clamp(hi - startAddress, |bits|)];
      } else {
        assert a == Clamp(lo + 1 - startAddress, |bits|);
      }
    }
  }

  /** A span that starts at or before the first coil and reaches past the
      last shows every coil once, in order. */
  lemma {:induction false} BitSpanAll(bits: seq<bool>, startAddress: int, lo: int, hi: int)
    requires lo <= startAddress && startAddress + |bits| <= hi
    ensures BitValues(Span(Coils(bits, startAddress), lo, hi)) == bits
  {
    BitSpan(bits, startAddress, lo, hi);
    assert bits[0..|bits|] == bits;
  }

  /** Coil rows are 8 cells wide and 8-aligned, start at the row holding the
      first coil and follow each other at steps of 8 addresses. */
  lemma {:induction false} CoilRowsLayout(bits: seq<bool>, startAddress: int)
    ensures var rows := CoilRows(bits, startAddress);
      && (|bits| > 0 ==> |rows| >= 1 && rows[0].start == JavaDiv(startAddress, 8) * 8)
      && (forall r :: 0 <= r < |rows| ==> |rows[r].cells| == 8 && rows[r].start % 8 == 0)
      && (forall r :: 0 <= r < |rows| - 1 ==> rows[r + 1].start == rows[r].start + 8)
  {
    var endAddress := startAddress + |bits| - 1;
    var q0, q1 := JavaDiv(startAddress, 8), JavaDiv(endAddress, 8);
    if |bits| > 0 {
      JavaDivMonotone8(startAddress, endAddress);
    }
    MultipleMod(q0, 8);
    GridShape(Coils(bits, startAddress), q0 * 8, q1 * 8, 8);
    GridAligned(Coils(bits, startAddress), q0 * 8, q1 * 8, 8);
  }

  /** For a non-negative start address the bit cells, read row by row, are
      exactly the unpacked coils in order. */
  lemma {:induction false} CoilBitsInOrder(bits: seq<bool>, startAddress: int)
    requires startAddress >= 0
    ensures BitValues(AllCells(CoilRows(bits, startAddress))) == bits
  {
    var endAddress := startAddress + |bits| - 1;
    var q0, q1 := JavaDiv(startAddress, 8), JavaDiv(endAddress, 8);
    var first, last := q0 * 8, q1 * 8;
    GridCells(Coils(bits, startAddress), first, last, 8);
    JavaDivBounds8(startAddress);
    JavaDivBounds8(endAddress);
    if |bits| > 0 {
      JavaDivMonotone8(startAddress, endAddress);
      assert last - first == (q1 - q0) * 8;
      MultipleMod(q1 - q0, 8);
      GridEnd(first, last, 8);
      BitSpanAll(bits, startAddress, first, GridStop(first, last, 8));
    } else {
      BitSpan(bits, startAddress, first, GridStop(first, last, 8));
    }
  }

  // ---------------------------------------------------------------------
  // Scan table
  // ---------------------------------------------------------------------

  function Classify(entries: seq<Reading>): Colour
    requires |entries| >= 1
  {
    if |entries| > 1 then (if AllSame(entries) then Yellow else Red) else Green
  }

  /** Green for a single reading, yellow for several equal readings, red as
      soon as one reading differs from the first. */
  lemma {:induction false} ClassifyMeaning(entries: seq<Reading>)
    requires |entries| >= 1
    ensures Classify(entries) == Green <==> |entries| == 1
    ensures Classify(entries) == Yellow <==> |entries| > 1 && AllSame(entries)
    ensures Classify(entries) == Red <==> exists i :: 0 <= i < |entries| && entries[i] != entries[0]
  {
  }

  /** Every address of the list has at least one reading in the map. */
  predicate Covers(m: map<int, seq<Reading>>, addrs: seq<int>) {
    forall k :: 0 <= k < |addrs| ==> addrs[k] in m && |m[addrs[k]]| >= 1
  }

  /** The value cell of an address: its first reading, coloured when colours
      are enabled. */
  function ValueCellOf(m: map<int, seq<Reading>>, a: int, colours: bool): Cell {
    // every address looked up comes from the map's own key set
    if a in m && |m[a]| >= 1 then ValueCell(a, m[a][0], if colours then Some(Classify(m[a])) else None)
    else NoValue
  }

  /** The index of the first address left for the next line, when a line
      is printed from position `p` up to (not including) `e` with
      `addrs[k]` the next address. */
  function LineNext(addrs: seq<int>, k: nat, p: int, e: int): (next: nat)
    requires k <= |addrs|
    ensures k <= next <= |addrs|
    decreases e - p
  {
    if p >= e || k == |addrs| then k
    else if p == addrs[k] then LineNext(addrs, k + 1, p + 1, e)
    else LineNext(addrs, k, p + 1, e)
  }

  /** Positions `p .. e - 1` of a line, with `addrs[k]` the next address to
      print: a value cell where it falls, a filler before it, and nothing
      after the last address. */
  function LineCells(m: map<int, seq<Reading>>, addrs: seq<int>, k: nat, p: int, e: int, colours: bool): (cells: seq<Cell>)
    requires k <= |addrs|
    ensures |cells| <= if p < e then e - p else 0
    decreases e - p
  {
    if p >= e || k == |addrs| then []
    else if p == addrs[k] then [ValueCellOf(m, addrs[k], colours)] + LineCells(m, addrs, k + 1, p + 1, e, colours)
    else [NoValue] + LineCells(m, addrs, k, p + 1, e, colours)
  }

  /** `(a / 8) * 8` with floor division: the 8-aligned start of the line
      holding `a`. */
  function LineStart(a: int): int {
    (a / 8) * 8
  }

  /** Each address lies in the eight positions of its line. */
  lemma {:induction false} LineStartBounds(a: int)
    ensures LineStart(a) % 8 == 0 && LineStart(a) <= a < LineStart(a) + 8
  {
  }

  /** A line that starts at or before the next address, no more than seven
      positions before it, prints that address. */
  lemma {:induction false} LineProgress(addrs: seq<int>, k: nat, p: int, e: int)
    requires k < |addrs| && p <= addrs[k] < e
    ensures LineNext(addrs, k, p, e) > k
    decreases e - p
  {
    if p != addrs[k] {
      LineProgress(addrs, k, p + 1, e);
    }
  }

  /** The lines of the scan table from address index `k` on. */
  function ScanRowsFrom(m: map<int, seq<Reading>>, addrs: seq<int>, k: nat, colours: bool): seq<Row>
    requires k <= |addrs|
    decreases |addrs| - k
  {
    if k == |addrs| then []
    else
      var s := LineStart(addrs[k]);
      LineStartBounds(addrs[k]);
      LineProgress(addrs, k, s, s + 8);
      [Row(s, LineCells(m, addrs, k, s, s + 8, colours))] + ScanRowsFrom(m, addrs, LineNext(addrs, k, s, s + 8), colours)
  }

  /** The first line of the table from index `k`, and the rest. */
  lemma {:induction false} ScanRowsStep(m: map<int, seq<Reading>>, addrs: seq<int>, k: nat, colours: bool)
    requires k < |addrs|
    ensures LineNext(addrs, k, LineStart(addrs[k]), LineStart(addrs[k]) + 8) > k
    ensures ScanRowsFrom(m, addrs, k, colours)
      == [Row(LineStart(addrs[k]), LineCells(m, addrs, k, LineStart(addrs[k]), LineStart(addrs[k]) + 8, colours))]
         + ScanRowsFrom(m, addrs, LineNext(addrs, k, LineStart(addrs[k]), LineStart(addrs[k]) + 8), colours)
  {
    LineStartBounds(addrs[k]);
    LineProgress(addrs, k, LineStart(addrs[k]), LineStart(addrs[k]) + 8);
  }

  function ValueAddresses(cells: seq<Cell>): seq<int> {
    if |cells| == 0 then []
    else (if cells[0].ValueCell? then [cells[0].address] else []) + ValueAddresses(cells[1..])
  }

  /** Within a line the printed addresses are `addrs[k..next]`. */
  lemma {:induction false} LineAddresses(m: map<int, seq<Reading>>, addrs: seq<int>, k: nat, p: int, e: int, colours: bool)
    requires Covers(m, addrs) && k <= |addrs|
    ensures ValueAddresses(LineCells(m, addrs, k, p, e, colours)) == addrs[k..LineNext(addrs, k, p, e)]
    decreases e - p
  {
    if p < e && k < |addrs| {
      var cells := LineCells(m, addrs, k, p, e, colours);
      if p == addrs[k] {
        LineAddresses(m, addrs, k + 1, p + 1, e, colours);
        assert cells[1..] == LineCells(m, addrs, k + 1, p + 1, e, colours);
        var next := LineNext(addrs, k, p, e);
        assert addrs[k..next] == [addrs[k]] + addrs[k + 1..next];
      } else {
        LineAddresses(m, addrs, k, p + 1, e, colours);
        assert cells[1..] == LineCells(m, addrs, k, p + 1, e, colours);
      }
    }
  }

  /** Every value cell of `cells` sits at position `base + i` and shows the
      first reading of that address. */
  predicate PlacedFrom(m: map<int, seq<Reading>>, cells: seq<Cell>, base: int, colours: bool) {
    forall i :: 0 <= i < |cells| && cells[i].ValueCell? ==>
      cells[i].address == base + i && cells[i] == ValueCellOf(m, cells[i].address, colours)
  }

  lemma {:induction false} PlacedCons(m: map<int, seq<Reading>>, c: Cell, rest: seq<Cell>, base: int, colours: bool)
    requires PlacedFrom(m, rest, base + 1, colours)
    requires c.ValueCell? ==> c.address == base && c == ValueCellOf(m, base, colours)
    ensures PlacedFrom(m, [c] + rest, base, colours)
  {
    var cells := [c] + rest;
    forall i | 1 <= i < |cells| && cells[i].ValueCell?
      ensures cells[i].address == base + i && cells[i] == ValueCellOf(m, cells[i].address, colours)
    {
      assert cells[i] == rest[i - 1];
    }
  }

  /** Within a line each value cell sits at the position of its address and
      shows that address's first reading. */
  lemma {:induction false} LinePositions(m: map<int, seq<Reading>>, addrs: seq<int>, k: nat, p: int, e: int, colours: bool)
    requires k <= |addrs|
    ensures PlacedFrom(m, LineCells(m, addrs, k, p, e, colours), p, colours)
    decreases e - p
  {
    if p < e && k < |addrs| {
      if p == addrs[k] {
        LinePositions(m, addrs, k + 1, p + 1, e, colours);
        PlacedCons(m, ValueCellOf(m, addrs[k], colours), LineCells(m, addrs, k + 1, p + 1, e, colours), p, colours);
      } else {
        LinePositions(m, addrs, k, p + 1, e, colours);
        PlacedCons(m, NoValue, LineCells(m, addrs, k, p + 1, e, colours), p, colours);
      }
    }
  }

  /** One step of a line at a position that holds the next address: the
      printed prefix grows by that address's value cell. */
  lemma {:induction false} LineStepValue(m: map<int, seq<Reading>>, addrs: seq<int>, k: nat, p: int, e: int, colours: bool, printed: seq<Cell>)
    requires k < |addrs| && p < e && p == addrs[k]
    ensures printed + LineCells(m, addrs, k, p, e, colours)
      == (printed + [ValueCellOf(m, addrs[k], colours)]) + LineCells(m, addrs, k + 1, p + 1, e, colours)
    ensures LineNext(addrs, k, p, e) == LineNext(addrs, k + 1, p + 1, e)
  {
  }

  /** One step of a line at a position without an address: the printed
      prefix grows by a filler. */
  lemma {:induction false} LineStepFiller(m: map<int, seq<Reading>>, addrs: seq<int>, k: nat, p: int, e: int, colours: bool, printed: seq<Cell>)
    requires k < |addrs| && p < e && p != addrs[k]
    ensures printed + LineCells(m, addrs, k, p, e, colours)
      == (printed + [NoValue]) + LineCells(m, addrs, k, p + 1, e, colours)
    ensures LineNext(addrs, k, p, e) == LineNext(addrs, k, p + 1, e)
  {
  }

  /** A line ends at its eighth position or after the last address. */
  lemma {:induction false} LineDone(m: map<int, seq<Reading>>, addrs: seq<int>, k: nat, p: int, e: int, colours: bool)
    requires k <= |addrs| && (p >= e || k == |addrs|)
    ensures LineCells(m, addrs, k, p, e, colours) == [] && LineNext(addrs, k, p, e) == k
  {
  }

  /** The line that prints the last address ends with its value cell. */
  lemma {:induction false} LineEnd(m: map<int, seq<Reading>>, addrs: seq<int>, k: nat, p: int, e: int, colours: bool)
    requires k < |addrs|
    requires LineNext(addrs, k, p, e) == |addrs|
    ensures var cells := LineCells(m, addrs, k, p, e, colours);
      |cells| >= 1 && cells[|cells| - 1] == ValueCellOf(m, addrs[|addrs| - 1], colours)
    decreases e - p
  {
    var cells := LineCells(m, addrs, k, p, e, colours);
    if p == addrs[k] {
      var rest := LineCells(m, addrs, k + 1, p + 1, e, colours);
      assert cells == [ValueCellOf(m, addrs[k], colours)] + rest;
      if k + 1 < |addrs| {
        LineEnd(m, addrs, k + 1, p + 1, e, colours);
        assert cells[|cells| - 1] == rest[|rest| - 1];
      }
    } else {
      var rest := LineCells(m, addrs, k, p + 1, e, colours);
      assert cells == [NoValue] + rest;
      LineEnd(m, addrs, k, p + 1, e, colours);
      assert cells[|cells| - 1] == rest[|rest| - 1];
    }
  }

  function AllValueAddresses(rows: seq<Row>): seq<int> {
    if |rows| == 0 then [] else ValueAddresses(rows[0].cells) + AllValueAddresses(rows[1..])
  }

  /** The scan table prints every address from index `k` on exactly once,
      in list order. */
  lemma {:induction false} ScanRowsAddresses(m: map<int, seq<Reading>>, addrs: seq<int>, k: nat, colours: bool)
    requires Covers(m, addrs) && k <= |addrs|
    ensures AllValueAddresses(ScanRowsFrom(m, addrs, k, colours)) == addrs[k..]
    decreases |addrs| - k
  {
    if k < |addrs| {
      var s := LineStart(addrs[k]);
      ScanRowsStep(m, addrs, k, colours);
      var next := LineNext(addrs, k, s, s + 8);
      var first := Row(s, LineCells(m, addrs, k, s, s + 8, colours));
      var rest := ScanRowsFrom(m, addrs, next, colours);
      LineAddresses(m, addrs, k, s, s + 8, colours);
      ScanRowsAddresses(m, addrs, next, colours);
      assert ([first] + rest)[1..] == rest;
      assert AllValueAddresses([first] + rest) == ValueAddresses(first.cells) + AllValueAddresses(rest);
      assert addrs[k..] == addrs[k..next] + addrs[next..];
    }
  }

  /** Each line starts at the 8-aligned start of its first address and has
      one to eight cells; each value cell sits at its address's position and
      shows that address's first reading. */
  lemma {:induction false} ScanRowsLayout(m: map<int, seq<Reading>>, addrs: seq<int>, k: nat, colours: bool)
    requires k <= |addrs|
    ensures var rows := ScanRowsFrom(m, addrs, k, colours);
      forall r :: 0 <= r < |rows| ==>
        && rows[r].start % 8 == 0
        && 1 <= |rows[r].cells| <= 8
        && PlacedFrom(m, rows[r].cells, rows[r].start, colours)
    decreases |addrs| - k
  {
    if k < |addrs| {
      var s := LineStart(addrs[k]);
      ScanRowsStep(m, addrs, k, colours);
      LineStartBounds(addrs[k]);
      LinePositions(m, addrs, k, s, s + 8, colours);
      var next := LineNext(addrs, k, s, s + 8);
      ScanRowsLayout(m, addrs, next, colours);
      var rows := ScanRowsFrom(m, addrs, k, colours);
      assert rows[1..] == ScanRowsFrom(m, addrs, next, colours);
    }
  }

  /** The last line ends right after the last address: its final cell is
      that address's value cell. */
  lemma {:induction false} ScanRowsEndAtLastAddress(m: map<int, seq<Reading>>, addrs: seq<int>, k: nat, colours: bool)
    requires k < |addrs|
    ensures var rows := ScanRowsFrom(m, addrs, k, colours);
      && |rows| >= 1
      && var last := rows[|rows| - 1].cells;
        |last| >= 1 && last[|last| - 1] == ValueCellOf(m, addrs[|addrs| - 1], colours)
    decreases |addrs| - k
  {
    var s := LineStart(addrs[k]);
    ScanRowsStep(m, addrs, k, colours);
    var next := LineNext(addrs, k, s, s + 8);
    var rows := ScanRowsFrom(m, addrs, k, colours);
    var rest := ScanRowsFrom(m, addrs, next, colours);
    assert rows == [Row(s, LineCells(m, addrs, k, s, s + 8, colours))] + rest;
    if next < |addrs| {
      ScanRowsEndAtLastAddress(m, addrs, next, colours);
      assert rows[|rows| - 1] == rest[|rest| - 1];
    } else {
      var cells := LineCells(m, addrs, k, s, s + 8, colours);
      assert |cells| >= 1 && cells[|cells| - 1] == ValueCellOf(m, addrs[|addrs| - 1], colours) by {
        LineEnd(m, addrs, k, s, s + 8, colours);
      }
      assert rest == [];
      assert rows[|rows| - 1].cells == cells;
    }
  }

  /** The table `formatScanResults` prints, or nothing for a missing or
      empty result list or one whose windows hold no registers. */
  function ScanOutput(results: Option<seq<ScanResult>>, colours: bool): seq<string>
    requires results.Some? ==> EvenLengths(results.value)
  {
    if results.None? || |results.value| == 0 then []
    else
      var obs := Observations(results.value);
      if |obs| == 0 then []
      else
        TableLines(ScanTable, ScanRowsFrom(ReadingsMap(obs), Ascending(obs), 0, colours))
  }

  lemma {:induction false} CoversReadings(obs: seq<Observation>)
    ensures Covers(ReadingsMap(obs), Ascending(obs))
  {
    var addrs := Ascending(obs);
    forall k | 0 <= k < |addrs|
      ensures |ReadingsAt(obs, addrs[k])| >= 1
    {
      ReadingsAtMeaning(obs, addrs[k]);
    }
  }

  // ---------------------------------------------------------------------
  // The source's scan loop, with Java's truncating division
  // ---------------------------------------------------------------------

  /** `(a / pairsPerLine) * pairsPerLine` as written: Java's `/` truncates
      toward zero, so a negative address that is not a multiple of 8 gets a
      line start above it. */
  function LineStartAsWritten(a: int): int {
    JavaDiv(a, 8) * 8
  }

  /** A line whose remaining positions all lie past the next address never
      reaches it. */
  lemma {:induction false} LineSkips(addrs: seq<int>, k: nat, p: int, e: int)
    requires k < |addrs| && p > addrs[k]
    ensures LineNext(addrs, k, p, e) == k
    decreases e - p
  {
    if p < e {
      LineSkips(addrs, k, p + 1, e);
    }
  }

  /** With truncating division, a negative address that is not a multiple
      of 8 gets a line start above it; the line then prints no address and
      the index does not move, so the `while` loop of `formatScanResults`
      repeats that line forever. */
  lemma {:induction false} NegativeAddressStalls(addrs: seq<int>, k: nat)
    requires k < |addrs| && addrs[k] < 0 && addrs[k] % 8 != 0
    ensures LineStartAsWritten(addrs[k]) > addrs[k]
    ensures LineNext(addrs, k, LineStartAsWritten(addrs[k]), LineStartAsWritten(addrs[k]) + 8) == k
  {
    LineSkips(addrs, k, LineStartAsWritten(addrs[k]), LineStartAsWritten(addrs[k]) + 8);
  }

  /** The smallest instance: a scan that observed only address -3. */
  lemma {:induction false} NegativeAddressExample()
    ensures LineStartAsWritten(-3) == 0 && LineNext([-3], 0, 0, 8) == 0
  {
    NegativeAddressStalls([-3], 0);
  }

  /** The two line starts agree for every address the truncation does not
      affect. */
  lemma {:induction false} LineStartAgrees(a: int)
    requires a >= 0 || a % 8 == 0
    ensures LineStartAsWritten(a) == LineStart(a)
  {
  }

  // ---------------------------------------------------------------------
  // The formatter object
  // ---------------------------------------------------------------------

  /** `HumanFormatter`: the only state is the iteration tag. Each
      `Format*` method returns the lines it prints. */
  class HumanFormatter {
    var currentIteration: Option<int>

    constructor()
      ensures currentIteration == None
    {
      currentIteration := None;
    }

    method SetIteration(iteration: Option<int>)
      modifies this
      ensures currentIteration == iteration
    {
      currentIteration := iteration;
    }

    /** Quiet mode drops protocol lines. */
    method FormatProtocol(pdu: Pdu, direction: Direction, timestamp: Option<Instant>, now: Instant, options: OutputOptions)
      returns (lines: seq<string>)
      ensures lines == if options.quiet then []
        else [TimestampPrefix(Effective(timestamp, now).display, currentIteration) + Arrow(direction) + " " + pdu.text]
    {
      if options.quiet {
        return [];
      }
      var prefix := TimestampPrefix(Effective(timestamp, now).display, currentIteration);
      lines := [prefix + Arrow(direction) + " " + pdu.text];
    }

    /** Quiet mode drops INFO messages only; messages take the prefix of
        the current time. */
    method FormatMessage(t: OutputType, message: string, now: Instant, options: OutputOptions)
      returns (lines: seq<string>)
      ensures lines == if options.quiet && t == Info then []
        else [TimestampPrefix(now.display, currentIteration) + message]
    {
      if options.quiet && t == Info {
        return [];
      }
      lines := [TimestampPrefix(now.display, currentIteration) + message];
    }

    method FormatRegisterTable(registers: seq<bv8>, startAddress: int, timestamp: Option<Instant>, options: OutputOptions)
      returns (lines: seq<string>)
      ensures lines == TableLines(RegisterTable, RegisterRows(registers, startAddress))
    {
      var startByteOffset := startAddress * 2;
      var endByteOffset := startByteOffset + |registers| - 1;
      var firstRowOffset := JavaDiv(startByteOffset, 16) * 16;
      var lastRowOffset := JavaDiv(endByteOffset, 16) * 16;
      var rows := RegisterRowsLoop(registers, startByteOffset, firstRowOffset, lastRowOffset);
      lines := TableLines(RegisterTable, rows);
    }

    /** The coil bytes must hold `quantity` coils and `quantity` must not be
        negative (the source throws otherwise). */
    method FormatCoilTable(coilBytes: seq<bv8>, startAddress: int, quantity: int, timestamp: Option<Instant>, options: OutputOptions)
      returns (lines: seq<string>)
      requires 0 <= quantity <= 8 * |coilBytes|
      ensures lines == TableLines(CoilTable, CoilRows(UnpackCoils(coilBytes, quantity), startAddress))
    {
      var bits := UnpackCoilArray(coilBytes, quantity);
      var endAddress := startAddress + bits.Length - 1;
      var firstRowAddress := JavaDiv(startAddress, 8) * 8;
      var lastRowAddress := JavaDiv(endAddress, 8) * 8;
      var rows := CoilRowsLoop(bits, startAddress, firstRowAddress, lastRowAddress);
      lines := TableLines(CoilTable, rows);
    }

    /** Every window must hold whole registers (the source indexes past the
        end of an odd-length window otherwise). Line starts use floor
        division; see `NegativeAddressStalls` for the truncating original. */
    method FormatScanResults(results: Option<seq<ScanResult>>, options: OutputOptions)
      returns (lines: seq<string>)
      requires results.Some? ==> EvenLengths(results.value)
      ensures lines == ScanOutput(results, options.colorsEnabled)
    {
      if results.None? || |results.value| == 0 {
        return [];
      }
      var scanResultMap, keys := Aggregate(results.value);
      ghost var obs := Observations(results.value);
      if |scanResultMap| == 0 {
        NoneObserved(obs, scanResultMap);
        return [];
      }
      SomeObserved(obs, scanResultMap);
      assert scanResultMap == ReadingsMap(obs);
      var sortedAddresses := SortAddresses(keys);
      AscendingUnique(sortedAddresses, Ascending(obs));
      CoversReadings(obs);
      var rows := ScanLinesLoop(scanResultMap, sortedAddresses, options.colorsEnabled);
      lines := TableLines(ScanTable, rows);
    }
  }

  /** The `while` loop over the sorted addresses: each pass prints one line
      of eight positions. */
  method ScanLinesLoop(scanResultMap: map<int, seq<Reading>>, sortedAddresses: seq<int>, colours: bool)
    returns (rows: seq<Row>)
    requires Covers(scanResultMap, sortedAddresses)
    ensures rows == ScanRowsFrom(scanResultMap, sortedAddresses, 0, colours)
  {
    var pairsPerLine := 8;
    var currentAddressIndex := 0;
    rows := [];
    while currentAddressIndex < |sortedAddresses|
      invariant 0 <= currentAddressIndex <= |sortedAddresses|
      invariant rows + ScanRowsFrom(scanResultMap, sortedAddresses, currentAddressIndex, colours)
        == ScanRowsFrom(scanResultMap, sortedAddresses, 0, colours)
      decreases |sortedAddresses| - currentAddressIndex
    {
      var displayLineStartAddress := (sortedAddresses[currentAddressIndex] / pairsPerLine) * pairsPerLine;
      LineStartBounds(sortedAddresses[currentAddressIndex]);
      ScanRowsStep(scanResultMap, sortedAddresses, currentAddressIndex, colours);
      var cells, next := PrintLine(scanResultMap, sortedAddresses, currentAddressIndex, displayLineStartAddress, colours);
      ghost var later := ScanRowsFrom(scanResultMap, sortedAddresses, next, colours);
      assert (rows + [Row(displayLineStartAddress, cells)]) + later == rows + ([Row(displayLineStartAddress, cells)] + later);
      rows := rows + [Row(displayLineStartAddress, cells)];
      currentAddressIndex := next;
    }
  }

  /** One pass of that loop: the eight positions from `s`, stopping right
      after the last address. */
  method PrintLine(scanResultMap: map<int, seq<Reading>>, sortedAddresses: seq<int>, k: nat, s: int, colours: bool)
    returns (cells: seq<Cell>, next: nat)
    requires Covers(scanResultMap, sortedAddresses) && k < |sortedAddresses|
    requires s <= sortedAddresses[k] < s + 8
    ensures cells == LineCells(scanResultMap, sortedAddresses, k, s, s + 8, colours)
    ensures next == LineNext(sortedAddresses, k, s, s + 8) && k < next
  {
    ghost var line := LineCells(scanResultMap, sortedAddresses, k, s, s + 8, colours);
    ghost var last := LineNext(sortedAddresses, k, s, s + 8);
    LineProgress(sortedAddresses, k, s, s + 8);
    var currentAddressIndex := k;
    cells := [];
    var j := 0;
    while j < 8
      invariant 0 <= j <= 8 && k <= currentAddressIndex < |sortedAddresses|
      invariant cells + LineCells(scanResultMap, sortedAddresses, currentAddressIndex, s + j, s + 8, colours) == line
      invariant LineNext(sortedAddresses, currentAddressIndex, s + j, s + 8) == last
    {
      var targetAddress := s + j;
      if targetAddress == sortedAddresses[currentAddressIndex] {
        var cell := ValueCellAt(scanResultMap, targetAddress, colours);
        assert (cells + [cell]) + LineCells(scanResultMap, sortedAddresses, currentAddressIndex + 1, targetAddress + 1, s + 8, colours) == line
          && LineNext(sortedAddresses, currentAddressIndex + 1, targetAddress + 1, s + 8) == last by {
          LineStepValue(scanResultMap, sortedAddresses, currentAddressIndex, targetAddress, s + 8, colours, cells);
        }
        cells := cells + [cell];
        currentAddressIndex := currentAddressIndex + 1;
        if currentAddressIndex >= |sortedAddresses| {
          break;
        }
      } else {
        assert (cells + [NoValue]) + LineCells(scanResultMap, sortedAddresses, currentAddressIndex, targetAddress + 1, s + 8, colours) == line
          && LineNext(sortedAddresses, currentAddressIndex, targetAddress + 1, s + 8) == last by {
          LineStepFiller(scanResultMap, sortedAddresses, currentAddressIndex, targetAddress, s + 8, colours, cells);
        }
        cells := cells + [NoValue];
      }
      j := j + 1;
    }
    assert cells == line && currentAddressIndex == last by {
      LineDone(scanResultMap, sortedAddresses, currentAddressIndex, s + j, s + 8, colours);
      assert cells + [] == cells;
    }
    next := currentAddressIndex;
  }

  /** The cell printed for an address of the map: its first reading, in
      the colour of all its readings. */
  method ValueCellAt(scanResultMap: map<int, seq<Reading>>, targetAddress: int, colours: bool) returns (cell: Cell)
    requires targetAddress in scanResultMap && |scanResultMap[targetAddress]| >= 1
    ensures cell == ValueCellOf(scanResultMap, targetAddress, colours)
  {
    var entries := scanResultMap[targetAddress];
    var valueToPrint := entries[0];
    var colour := ValueColour(entries, colours);
    cell := ValueCell(targetAddress, valueToPrint, colour);
  }

  /** The colour a value is printed in, when colours are enabled. */
  method ValueColour(entries: seq<Reading>, colours: bool) returns (colour: Option<Colour>)
    requires |entries| >= 1
    ensures colour == if colours then Some(Classify(entries)) else None
  {
    colour := None;
    if colours {
      if |entries| > 1 {
        var allEqual := AreAllEqual(entries);
        colour := Some(if allEqual then Yellow else Red);
      } else {
        colour := Some(Green);
      }
    }
  }

  /** The sixteen cells of the register row at `rowOffset`. */
  method RegisterRowCells(registers: seq<bv8>, startByteOffset: int, rowOffset: int) returns (cells: seq<Cell>)
    ensures |cells| == 16
    ensures forall p :: 0 <= p < 16 ==> cells[p] == CellAt(Registers(registers, startByteOffset), rowOffset + p)
  {
    var endByteOffset := startByteOffset + |registers| - 1;
    cells := [];
    var position := 0;
    while position < 16
      invariant 0 <= position <= 16 && |cells| == position
      invariant forall p :: 0 <= p < position ==> cells[p] == CellAt(Registers(registers, startByteOffset), rowOffset + p)
    {
      var absoluteByteOffset := rowOffset + position;
      if absoluteByteOffset < startByteOffset || absoluteByteOffset > endByteOffset {
        cells := cells + [NoByte];
      } else {
        var arrayIndex := absoluteByteOffset - startByteOffset;
        cells := cells + [ByteCell(registers[arrayIndex])];
      }
      position := position + 1;
    }
  }

  /** The row loop of `formatRegisterTable`, from row offset `first` to
      `last` in steps of 16. */
  method RegisterRowsLoop(registers: seq<bv8>, startByteOffset: int, first: int, last: int) returns (rows: seq<Row>)
    ensures rows == GridRows(Registers(registers, startByteOffset), first, last, 16)
  {
    ghost var src := Registers(registers, startByteOffset);
    rows := [];
    var rowOffset := first;
    while rowOffset <= last
      invariant rows + GridRows(src, rowOffset, last, 16) == GridRows(src, first, last, 16)
      decreases last - rowOffset
    {
      var cells := RegisterRowCells(registers, startByteOffset, rowOffset);
      assert (rows + [Row(rowOffset, cells)]) + GridRows(src, rowOffset + 16, last, 16)
        == GridRows(src, first, last, 16) by {
        GridStep(src, rowOffset, last, 16, rows, cells);
      }
      rows := rows + [Row(rowOffset, cells)];
      rowOffset := rowOffset + 16;
    }
    GridDone(src, rowOffset, last, 16, rows);
  }

  /** The row loop of `formatCoilTable` over the unpacked bits, from row
      address `first` to `last` in steps of 8. */
  method CoilRowsLoop(bits: array<bool>, startAddress: int, first: int, last: int) returns (rows: seq<Row>)
    ensures rows == GridRows(Coils(bits[..], startAddress), first, last, 8)
  {
    ghost var src := Coils(bits[..], startAddress);
    rows := [];
    var rowAddress := first;
    while rowAddress <= last
      invariant rows + GridRows(src, rowAddress, last, 8) == GridRows(src, first, last, 8)
      decreases last - rowAddress
    {
      var cells := CoilRowCells(bits, startAddress, rowAddress);
      assert (rows + [Row(rowAddress, cells)]) + GridRows(src, rowAddress + 8, last, 8)
        == GridRows(src, first, last, 8) by {
        GridStep(src, rowAddress, last, 8, rows, cells);
      }
      rows := rows + [Row(rowAddress, cells)];
      rowAddress := rowAddress + 8;
    }
    GridDone(src, rowAddress, last, 8, rows);
  }

  /** The eight cells of the coil row at `rowAddress`. */
  method CoilRowCells(bits: array<bool>, startAddress: int, rowAddress: int) returns (cells: seq<Cell>)
    ensures |cells| == 8
    ensures forall p :: 0 <= p < 8 ==> cells[p] == CellAt(Coils(bits[..], startAddress), rowAddress + p)
  {
    var endAddress := startAddress + bits.Length - 1;
    cells := [];
    var position := 0;
    while position < 8
      invariant 0 <= position <= 8 && |cells| == position
      invariant forall p :: 0 <= p < position ==> cells[p] == CellAt(Coils(bits[..], startAddress), rowAddress + p)
    {
      var absoluteAddress := rowAddress + position;
      if absoluteAddress < startAddress || absoluteAddress > endAddress {
        cells := cells + [NoBit];
      } else {
        var bitIndex := absoluteAddress - startAddress;
        cells := cells + [BitCell(bits[bitIndex])];
      }
      position := position + 1;
    }
  }

  /** The `boolean[] bits` array of `formatCoilTable`, filled bit by bit
      from the packed coil bytes. */
  method UnpackCoilArray(coilBytes: seq<bv8>, quantity: nat) returns (bits: array<bool>)
    requires quantity <= 8 * |coilBytes|
    ensures fresh(bits) && bits[..] == UnpackCoils(coilBytes, quantity)
  {
    bits := new bool[quantity];
    var i := 0;
    while i < quantity
      invariant 0 <= i <= quantity
      invariant bits[..i] == UnpackCoils(coilBytes, i)
    {
      var byteIndex := i / 8;
      var bitIndex := i % 8;
      bits[i] := coilBytes[byteIndex] & ((1 as bv8) << bitIndex) != 0;
      i := i + 1;
    }
    assert bits[..] == bits[..quantity];
  }
}
