/**
 * The register scan: a window of `size` registers slides over
 * `[start, end)` in steps of `step`; each window is read with one request
 * and yields a `ScanResult(windowStart, bytes)`. Without `--partial` a short
 * final window is skipped. The device read is an oracle.
 */
module ScanCommand {
  import opened Wrappers

  const DefaultWindowSize: int := 10

  /** One read: the window start and the register bytes returned for it. */
  datatype ScanResult = ScanResult(address: int, registers: seq<bv8>)

  /** A read request the scan issues: starting address and register count. */
  datatype Window = Window(address: int, count: int)

  /** The device read, `client.readHoldingRegisters`: the bytes of the
      registers, or the message of the exception it throws. */
  type ReadOracle = (int, int) -> Result<seq<bv8>, string>

  function Min(a: int, b: int): int {
    if a <= b then a else b
  }

  /** The loop ends: either no window is ever read, or each pass advances. */
  predicate Terminates(start: int, end: int, size: int, step: int) {
    start >= end || size <= 0 || step >= 1
  }

  /** The windows the `for` loop requests from address `i` on. */
  function WindowsFrom(i: int, end: int, size: int, step: int, partial: bool): seq<Window>
    requires Terminates(i, end, size, step)
    decreases end - i
  {
    if i >= end then []
    else
      var windowSize := Min(size, end - i);
      if windowSize <= 0 then []
      else if !partial && windowSize < size then WindowsFrom(i + step, end, size, step, partial)
      else [Window(i, windowSize)] + WindowsFrom(i + step, end, size, step, partial)
  }

  function Windows(start: int, end: int, size: int, step: int, partial: bool): seq<Window>
    requires Terminates(start, end, size, step)
  {
    WindowsFrom(start, end, size, step, partial)
  }

  /** The reads issued in order; the first failing read aborts the scan. */
  function ScanOutcome(ws: seq<Window>, read: ReadOracle): Result<seq<ScanResult>, string> {
    if ws == [] then Ok([])
    else
      var resp := read(ws[0].address, ws[0].count);
      if resp.Err? then Err(resp.error)
      else
        var rest := ScanOutcome(ws[1..], read);
        if rest.Err? then rest else Ok([ScanResult(ws[0].address, resp.value)] + rest.value)
  }

  /** The scan succeeds iff every read does, and then holds one result per
      window, in window order, carrying the window start and the bytes read;
      otherwise it fails with the error of the first failing read. */
  lemma {:induction false} ScanOutcomeMeaning(ws: seq<Window>, read: ReadOracle)
    ensures ScanOutcome(ws, read).Ok? <==> forall k :: 0 <= k < |ws| ==> read(ws[k].address, ws[k].count).Ok?
    ensures ScanOutcome(ws, read).Ok? ==> |ScanOutcome(ws, read).value| == |ws|
    ensures ScanOutcome(ws, read).Ok? ==> forall k :: 0 <= k < |ws| ==>
      ScanOutcome(ws, read).value[k] == ScanResult(ws[k].address, read(ws[k].address, ws[k].count).value)
    ensures ScanOutcome(ws, read).Err? ==> FirstFailure(ws, read, ScanOutcome(ws, read).error)
  {
    if ws != [] {
      ScanOutcomeMeaning(ws[1..], read);
      var rest := ScanOutcome(ws[1..], read);
      if read(ws[0].address, ws[0].count).Ok? && rest.Err? {
        var j :| 0 <= j < |ws| - 1 && read(ws[1..][j].address, ws[1..][j].count) == Err(rest.error)
          && forall k :: 0 <= k < j ==> read(ws[1..][k].address, ws[1..][k].count).Ok?;
        assert read(ws[j + 1].address, ws[j + 1].count) == Err(rest.error);
      }
    }
  }

  /** Some window's read fails with `error`, and all reads before it succeed. */
  ghost predicate FirstFailure(ws: seq<Window>, read: ReadOracle, error: string) {
    exists j :: 0 <= j < |ws| && read(ws[j].address, ws[j].count) == Err(error)
      && forall k :: 0 <= k < j ==> read(ws[k].address, ws[k].count).Ok?
  }

  // ---------------------------------------------------------------------
  // Properties of the windows
  // ---------------------------------------------------------------------

  /** `m * step`: the offset of the `m`-th pass of the loop. */
  function Stride(m: nat, step: int): int {
    m * step
  }

  /** Every window lies inside `[i, end)` and reads `min(size, end - address)`
      registers, that is 1 to `size`. */
  predicate InRange(ws: seq<Window>, i: int, end: int, size: int) {
    forall k :: 0 <= k < |ws| ==>
      i <= ws[k].address < end && ws[k].count == Min(size, end - ws[k].address)
      && 1 <= ws[k].count <= size && ws[k].address + ws[k].count <= end
  }

  /** Every window starts at `i + m * step` for some pass `m`. */
  ghost predicate OnGrid(ws: seq<Window>, i: int, step: int) {
    forall k :: 0 <= k < |ws| ==> exists m: nat :: ws[k].address == i + Stride(m, step)
  }

  predicate Increasing(ws: seq<Window>) {
    forall k, l :: 0 <= k < l < |ws| ==> ws[k].address < ws[l].address
  }

  predicate AllFull(ws: seq<Window>, size: int) {
    forall k :: 0 <= k < |ws| ==> ws[k].count == size
  }

  /** One pass of the loop: either the window at `i` is read or it is
      skipped, and the rest follows from `i + step`. */
  lemma Unfold(i: int, end: int, size: int, step: int, partial: bool)
    requires i < end && size >= 1 && step >= 1
    ensures var rest := WindowsFrom(i + step, end, size, step, partial);
      WindowsFrom(i, end, size, step, partial) ==
        if !partial && Min(size, end - i) < size then rest else [Window(i, Min(size, end - i))] + rest
  {
  }

  /** Every read asks for `min(size, end - address)` registers, which lies
      in `1..size`, and the window stays inside `[i, end)`. */
  lemma {:induction false} WindowsInRange(i: int, end: int, size: int, step: int, partial: bool)
    requires Terminates(i, end, size, step)
    ensures InRange(WindowsFrom(i, end, size, step, partial), i, end, size)
    decreases end - i
  {
    if i < end && size >= 1 {
      var ws := WindowsFrom(i, end, size, step, partial);
      var rest := WindowsFrom(i + step, end, size, step, partial);
      WindowsInRange(i + step, end, size, step, partial);
      Unfold(i, end, size, step, partial);
      forall k | 0 <= k < |ws| && ws[k].address != i
        ensures i <= ws[k].address
      {
        var k' := if |ws| == |rest| then k else k - 1;
        assert ws[k] == rest[k'];
      }
    }
  }

  /** Window starts are `i, i + step, i + 2 * step, ...`. */
  lemma {:induction false} WindowsOnGrid(i: int, end: int, size: int, step: int, partial: bool)
    requires Terminates(i, end, size, step)
    ensures OnGrid(WindowsFrom(i, end, size, step, partial), i, step)
    decreases end - i
  {
    if i < end && size >= 1 {
      var ws := WindowsFrom(i, end, size, step, partial);
      var rest := WindowsFrom(i + step, end, size, step, partial);
      WindowsOnGrid(i + step, end, size, step, partial);
      Unfold(i, end, size, step, partial);
      forall k | 0 <= k < |ws|
        ensures exists m: nat :: ws[k].address == i + Stride(m, step)
      {
        if ws[k].address == i {
          assert ws[k].address == i + Stride(0, step);
        } else {
          var k' := if |ws| == |rest| then k else k - 1;
          assert ws[k] == rest[k'];
          var m: nat :| rest[k'].address == i + step + Stride(m, step);
          assert ws[k].address == i + Stride(m + 1, step);
        }
      }
    }
  }

  /** No read is issued when the range is empty or the size is not
      positive. */
  lemma NoWindows(start: int, end: int, size: int, step: int, partial: bool)
    requires start >= end || size <= 0
    ensures Windows(start, end, size, step, partial) == []
  {
  }

  /** Without `--partial` every read is a full window. */
  lemma {:induction false} FullWindowsOnly(i: int, end: int, size: int, step: int)
    requires Terminates(i, end, size, step)
    ensures AllFull(WindowsFrom(i, end, size, step, false), size)
    decreases end - i
  {
    if i < end && size >= 1 {
      FullWindowsOnly(i + step, end, size, step);
      Unfold(i, end, size, step, false);
    }
  }

  /** Window starts strictly increase, so results come out in address order. */
  lemma {:induction false} StartsIncrease(i: int, end: int, size: int, step: int, partial: bool)
    requires Terminates(i, end, size, step)
    ensures Increasing(WindowsFrom(i, end, size, step, partial))
    decreases end - i
  {
    if i < end && size >= 1 {
      StartsIncrease(i + step, end, size, step, partial);
      WindowsInRange(i + step, end, size, step, partial);
      Unfold(i, end, size, step, partial);
    }
  }

  /** The windows tile `[i, end)`: the first starts at `i`, each starts where
      the previous one ended, and the last ends at `end`. */
  predicate Tiles(ws: seq<Window>, i: int, end: int) {
    |ws| >= 1 && ws[0].address == i
    && (forall k :: 0 <= k < |ws| - 1 ==> ws[k].address + ws[k].count == ws[k + 1].address)
    && ws[|ws| - 1].address + ws[|ws| - 1].count == end
  }

  /** With `step == size` (the default) and partial windows read, the
      windows tile `[start, end)` exactly, without overlap. */
  lemma {:induction false} WindowsTile(i: int, end: int, size: int)
    requires size >= 1 && i < end
    ensures Tiles(WindowsFrom(i, end, size, size, true), i, end)
    decreases end - i
  {
    Unfold(i, end, size, size, true);
    if i + size < end {
      WindowsTile(i + size, end, size);
    }
  }

  // ---------------------------------------------------------------------
  // The loop
  // ---------------------------------------------------------------------

  function Prepend(done: seq<ScanResult>, later: Result<seq<ScanResult>, string>): Result<seq<ScanResult>, string> {
    if later.Ok? then Ok(done + later.value) else later
  }

  lemma PrependNothing(x: Result<seq<ScanResult>, string>)
    ensures Prepend([], x) == x
  {
    if x.Ok? {
      assert [] + x.value == x.value;
    }
  }

  lemma PrependRead(done: seq<ScanResult>, w: Window, ws: seq<Window>, regs: seq<bv8>, read: ReadOracle)
    requires read(w.address, w.count) == Ok(regs)
    ensures Prepend(done, ScanOutcome([w] + ws, read))
         == Prepend(done + [ScanResult(w.address, regs)], ScanOutcome(ws, read))
  {
    assert ([w] + ws)[1..] == ws;
    var rest := ScanOutcome(ws, read);
    if rest.Ok? {
      assert done + ([ScanResult(w.address, regs)] + rest.value)
          == (done + [ScanResult(w.address, regs)]) + rest.value;
    }
  }

  /** The `for` loop of `run`, with its `break` and `continue`. A failing
      read ends the scan with that read's error and no results. */
  method Scan(start: int, end: int, size: int, step: int, partial: bool, read: ReadOracle)
    returns (r: Result<seq<ScanResult>, string>)
    requires Terminates(start, end, size, step)
    ensures r == ScanOutcome(Windows(start, end, size, step, partial), read)
  {
    var results: seq<ScanResult> := [];
    var i := start;
    PrependNothing(ScanOutcome(Windows(start, end, size, step, partial), read));
    while i < end
      invariant Terminates(i, end, size, step)
      invariant ScanOutcome(Windows(start, end, size, step, partial), read)
             == Prepend(results, ScanOutcome(WindowsFrom(i, end, size, step, partial), read))
      decreases end - i
    {
      var windowSize := Min(size, end - i);
      if windowSize <= 0 {
        break;
      }
      Unfold(i, end, size, step, partial);
      if !partial && windowSize < size {
        i := i + step;
        continue;
      }
      var response := read(i, windowSize);
      if response.Err? {
        return Err(response.error);
      }
      PrependRead(results, Window(i, windowSize), WindowsFrom(i + step, end, size, step, partial), response.value, read);
      results := results + [ScanResult(i, response.value)];
      i := i + step;
    }
    assert WindowsFrom(i, end, size, step, partial) == [];
    assert results + [] == results;
    return Ok(results);
  }

  /** The scan command's options, defaulted in place by `run`. */
  class ScanOptions {
    var start: int
    var end: int
    var size: Option<int>
    var step: Option<int>
    var partial: bool

    constructor(start: int, end: int, size: Option<int>, step: Option<int>, partial: bool)
      ensures this.start == start && this.end == end && this.size == size
      ensures this.step == step && this.partial == partial
    {
      this.start := start;
      this.end := end;
      this.size := size;
      this.step := step;
      this.partial := partial;
    }

    /** An absent size becomes 10; an absent step becomes the size. */
    method ApplyDefaults()
      modifies this
      ensures size == Some(old(size).GetOr(DefaultWindowSize))
      ensures step == Some(old(step).GetOr(size.value))
      ensures start == old(start) && end == old(end) && partial == old(partial)
    {
      if size.None? {
        size := Some(DefaultWindowSize);
      }
      if step.None? {
        step := Some(size.value);
      }
    }

    /** `run`: default the options, then scan. */
    method Run(read: ReadOracle) returns (r: Result<seq<ScanResult>, string>)
      requires Terminates(start, end, size.GetOr(DefaultWindowSize), step.GetOr(size.GetOr(DefaultWindowSize)))
      modifies this
      ensures size == Some(old(size).GetOr(DefaultWindowSize))
      ensures step == Some(old(step).GetOr(size.value))
      ensures start == old(start) && end == old(end) && partial == old(partial)
      ensures r == ScanOutcome(Windows(old(start), old(end), old(size).GetOr(DefaultWindowSize),
                                       old(step).GetOr(old(size).GetOr(DefaultWindowSize)), old(partial)), read)
    {
      ApplyDefaults();
      r := Scan(start, end, size.value, step.value, partial, read);
    }
  }
}
