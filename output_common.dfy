// What the JSON and the human formatter share: the per-address aggregation
// of overlapping scan windows, the "all readings equal" test, the sorted
// address list and the LSB-first coil bit.

module OutputCommon {
  import opened Wrappers
  import opened ScanCommand

  /** The kinds of message a command emits. */
  datatype OutputType = Data | Error | Warning | Success | Info | Protocol

  /** `type.name().toLowerCase()`. */
  function TypeName(t: OutputType): string {
    match t
    case Data => "data"
    case Error => "error"
    case Warning => "warning"
    case Success => "success"
    case Info => "info"
    case Protocol => "protocol"
  }

  /** Whether a PDU was sent to the device or received from it. */
  datatype Direction = Sent | Received

  /** `direction.name().toLowerCase()`. */
  function DirectionName(d: Direction): string {
    match d
    case Sent => "sent"
    case Received => "received"
  }

  function Arrow(d: Direction): string {
    match d
    case Sent => "\U{2192}"
    case Received => "\U{2190}"
  }

  datatype OutputFormat = Human | Json

  datatype OutputOptions = OutputOptions(format: OutputFormat, verbose: bool, quiet: bool, colorsEnabled: bool)

  /** A point in time, carried with its two renderings: `Instant.toString()`
      (ISO-8601, used by the JSON records) and the local
      `yyyy-MM-dd HH:mm:ss.SSS` text (used by the human prefix). */
  datatype Instant = Instant(iso: string, display: string)

  /** `timestamp != null ? timestamp : Instant.now()`, the clock reading
      being a parameter. */
  function Effective(timestamp: Option<Instant>, now: Instant): Instant {
    if timestamp.Some? then timestamp.value else now
  }

  /** A protocol data unit as the formatters see it: its function code, the
      text the JSON formatter gets from the foreign serializer (the hex dump,
      or `toString()` when it cannot be encoded) and its `toString()`. */
  datatype Pdu = Pdu(functionCode: int, encoded: string, text: string)

  /** One register as a read returned it: high byte, then low byte. */
  datatype Reading = Reading(hi: bv8, lo: bv8)

  /** One register reading attributed to its address. */
  datatype Observation = Observation(address: int, reading: Reading)

  /** Every window holds whole registers (a Modbus register read always
      answers with two bytes per register). */
  predicate EvenLengths(results: seq<ScanResult>) {
    forall k :: 0 <= k < |results| ==> |results[k].registers| % 2 == 0
  }

  /** The registers of one window: byte pair `2j, 2j+1` belongs to the
      address `address + j`. */
  function WindowObservations(r: ScanResult): seq<Observation>
    requires |r.registers| % 2 == 0
  {
    Pairs(r.address, r.registers)
  }

  /** The byte pairs of `bytes`, the first attributed to `address`, the
      next to `address + 1`, and so on. */
  function Pairs(address: int, bytes: seq<bv8>): seq<Observation>
    decreases |bytes|
  {
    if |bytes| < 2 then []
    else [Observation(address, Reading(bytes[0], bytes[1]))] + Pairs(address + 1, bytes[2..])
  }

  /** Observation `j` of a window is address `address + j` with bytes
      `2j` and `2j + 1`. */
  lemma {:induction false} PairsAt(address: int, bytes: seq<bv8>, j: int)
    requires |bytes| % 2 == 0 && 0 <= j < |bytes| / 2
    ensures |Pairs(address, bytes)| == |bytes| / 2
    ensures Pairs(address, bytes)[j] == Observation(address + j, Reading(bytes[2 * j], bytes[2 * j + 1]))
    decreases |bytes|
  {
    if j > 0 {
      PairsAt(address + 1, bytes[2..], j - 1);
    } else if |bytes| > 2 {
      PairsAt(address + 1, bytes[2..], 0);
    }
  }

  /** One pass of the window loop at byte offset `i`: the observations
      read so far grow by the pair at `i`. */
  lemma PairsStep(address: int, bytes: seq<bv8>, i: nat, seen: seq<Observation>)
    requires i + 1 < |bytes|
    ensures seen + Pairs(address + i / 2, bytes[i..])
      == (seen + [Observation(address + i / 2, Reading(bytes[i], bytes[i + 1]))]) + Pairs(address + (i + 2) / 2, bytes[i + 2..])
  {
    assert bytes[i..][2..] == bytes[i + 2..];
  }

  /** All observations, window after window and, inside a window, in offset
      order: the order in which the formatters append to the per-address lists. */
  function Observations(results: seq<ScanResult>): seq<Observation>
    requires EvenLengths(results)
  {
    if |results| == 0 then []
    else Observations(results[..|results| - 1]) + WindowObservations(results[|results| - 1])
  }

  /** The readings of address `a`, in observation order. */
  function ReadingsAt(obs: seq<Observation>, a: int): seq<Reading> {
    if |obs| == 0 then []
    else
      ReadingsAt(obs[..|obs| - 1], a)
        + (if obs[|obs| - 1].address == a then [obs[|obs| - 1].reading] else [])
  }

  function AddressesOf(obs: seq<Observation>): set<int> {
    set o | o in obs :: o.address
  }

  /** An address has readings exactly when it was observed, and its readings
      are those of its observations, in order and none dropped. */
  lemma {:induction false} ReadingsAtMeaning(obs: seq<Observation>, a: int)
    ensures |ReadingsAt(obs, a)| >= 1 <==> a in AddressesOf(obs)
    ensures forall r :: r in ReadingsAt(obs, a) <==> Observation(a, r) in obs
  {
    if |obs| > 0 {
      var front := obs[..|obs| - 1];
      ReadingsAtMeaning(front, a);
      assert obs == front + [obs[|obs| - 1]];
      assert AddressesOf(obs) == AddressesOf(front) + {obs[|obs| - 1].address};
    }
  }

  lemma ReadingsAtSnoc(obs: seq<Observation>, o: Observation, a: int)
    ensures ReadingsAt(obs + [o], a) == ReadingsAt(obs, a) + (if o.address == a then [o.reading] else [])
  {
    assert (obs + [o])[..|obs|] == obs;
  }

  lemma AddressesOfSnoc(obs: seq<Observation>, o: Observation)
    ensures AddressesOf(obs + [o]) == AddressesOf(obs) + {o.address}
  {
    assert forall x :: x in obs + [o] <==> x in obs || x == o;
  }

  lemma ObservationsSnoc(results: seq<ScanResult>, k: nat)
    requires EvenLengths(results) && k < |results|
    ensures EvenLengths(results[..k])
    ensures Observations(results[..k + 1]) == Observations(results[..k]) + WindowObservations(results[k])
  {
    assert results[..k + 1][..k] == results[..k];
  }

  /** A per-address map holds exactly the readings of `obs`. */
  predicate Reflects(m: map<int, seq<Reading>>, obs: seq<Observation>) {
    && m.Keys == AddressesOf(obs)
    && forall a :: a in m ==> m[a] == ReadingsAt(obs, a)
  }

  /** One `computeIfAbsent(address, ..).add(reading)` keeps the map in step
      with the observations. */
  lemma ReflectsSnoc(m: map<int, seq<Reading>>, obs: seq<Observation>, o: Observation)
    requires Reflects(m, obs)
    ensures Reflects(m[o.address := (if o.address in m then m[o.address] else []) + [o.reading]], obs + [o])
  {
    forall a | a in m
      ensures ReadingsAt(obs + [o], a) == m[a] + (if o.address == a then [o.reading] else [])
    {
      ReadingsAtSnoc(obs, o, a);
    }
    ReadingsAtSnoc(obs, o, o.address);
    if o.address !in m {
      ReadingsAtMeaning(obs, o.address);
    }
    AddressesOfSnoc(obs, o);
  }

  /** The per-address map the formatters build with `computeIfAbsent(..).add(..)`:
      its keys are the observed addresses and each list holds that address's
      readings in window-then-offset order. `keys` lists the keys once each,
      standing for `map.keySet()`, whose order the sort makes irrelevant. */
  method Aggregate(results: seq<ScanResult>) returns (m: map<int, seq<Reading>>, keys: seq<int>)
    requires EvenLengths(results)
    ensures m.Keys == AddressesOf(Observations(results))
    ensures Distinct(keys) && forall a :: a in keys <==> a in m
    ensures forall a :: a in m ==> m[a] == ReadingsAt(Observations(results), a)
  {
    m := map[];
    keys := [];
    ghost var obs: seq<Observation> := [];
    var k := 0;
    while k < |results|
      invariant 0 <= k <= |results|
      invariant EvenLengths(results[..k]) && obs == Observations(results[..k])
      invariant Reflects(m, obs)
      invariant KeyList(keys, m)
    {
      m, keys := AggregateWindow(m, keys, results[k], obs);
      assert obs + WindowObservations(results[k]) == Observations(results[..k + 1]) by {
        ObservationsSnoc(results, k);
      }
      obs := obs + WindowObservations(results[k]);
      k := k + 1;
    }
    assert results[..|results|] == results;
  }

  /** The inner loop of the aggregation: the byte pairs of one window added
      to the map, address by address. */
  method AggregateWindow(m0: map<int, seq<Reading>>, keys0: seq<int>, r: ScanResult, ghost obs: seq<Observation>)
    returns (m: map<int, seq<Reading>>, keys: seq<int>)
    requires |r.registers| % 2 == 0
    requires Reflects(m0, obs) && KeyList(keys0, m0)
    ensures Reflects(m, obs + WindowObservations(r))
    ensures KeyList(keys, m)
  {
    m, keys := m0, keys0;
    var address := r.address;
    var registers := r.registers;
    ghost var seen := obs;
    var i := 0;
    assert registers[0..] == registers;
    while i < |registers|
      invariant WindowProgress(m, keys, seen, obs + WindowObservations(r), address, registers, i)
    {
      EvenStep(i, |registers|);
      var current := address + i / 2;
      var value := Reading(registers[i], registers[i + 1]);
      ghost var o := Observation(current, value);
      var entry := (if current in m then m[current] else []) + [value];
      WindowStep(m, keys, seen, obs + WindowObservations(r), address, registers, i, o, entry);
      if current !in m {
        keys := keys + [current];
      }
      m := m[current := entry];
      seen := seen + [o];
      i := i + 2;
    }
    assert seen + [] == seen;
  }

  /** The state of the inner aggregation loop after the first `i` bytes:
      the map reflects the observations seen so far, which together with
      the pairs still to come make up `target`. */
  ghost predicate WindowProgress(m: map<int, seq<Reading>>, keys: seq<int>, seen: seq<Observation>,
                                 target: seq<Observation>, address: int, registers: seq<bv8>, i: int)
  {
    && 0 <= i <= |registers| && i % 2 == 0
    && seen + Pairs(address + i / 2, registers[i..]) == target
    && Reflects(m, seen)
    && KeyList(keys, m)
  }

  /** One pass of the inner aggregation loop keeps its state consistent. */
  lemma WindowStep(m: map<int, seq<Reading>>, keys: seq<int>, seen: seq<Observation>,
                   target: seq<Observation>, address: int, registers: seq<bv8>, i: int,
                   o: Observation, entry: seq<Reading>)
    requires WindowProgress(m, keys, seen, target, address, registers, i)
    requires i + 1 < |registers|
    requires o == Observation(address + i / 2, Reading(registers[i], registers[i + 1]))
    requires entry == (if o.address in m then m[o.address] else []) + [o.reading]
    ensures WindowProgress(m[o.address := entry], if o.address in m then keys else keys + [o.address],
                           seen + [o], target, address, registers, i + 2)
  {
    PairsStep(address, registers, i, seen);
    ReflectsSnoc(m, seen, o);
    KeyListPut(keys, m, o.address, entry);
  }

  /** The step from one byte pair to the next. */
  lemma EvenStep(i: int, length: int)
    requires 0 <= i < length && i % 2 == 0 && length % 2 == 0
    ensures i + 1 < length && (i + 2) % 2 == 0 && (i + 2) / 2 == i / 2 + 1
  {
  }

  /** `keys` lists the keys of `m`, each once. */
  ghost predicate KeyList(keys: seq<int>, m: map<int, seq<Reading>>) {
    Distinct(keys) && forall a :: a in keys <==> a in m
  }

  /** Putting an entry keeps the key list in step, appending a new key. */
  lemma KeyListPut(keys: seq<int>, m: map<int, seq<Reading>>, a: int, entry: seq<Reading>)
    requires KeyList(keys, m)
    ensures KeyList(if a in m then keys else keys + [a], m[a := entry])
  {
    if a !in m {
      DistinctSnoc(keys, a);
    }
  }

  /** Every reading of the list equals the first. */
  predicate AllSame(entries: seq<Reading>) {
    forall i :: 0 <= i < |entries| ==> entries[i] == entries[0]
  }

  /** `areAllEqual`: true for zero or one entry; otherwise compares every
      later entry with the first and stops at the first difference. */
  method AreAllEqual(entries: seq<Reading>) returns (b: bool)
    ensures b <==> AllSame(entries)
    ensures !b ==> exists i :: 1 <= i < |entries| && entries[i] != entries[0]
  {
    if |entries| <= 1 {
      return true;
    }
    var first := entries[0];
    var i := 1;
    while i < |entries|
      invariant 1 <= i <= |entries|
      invariant forall j :: 0 <= j < i ==> entries[j] == first
    {
      if entries[i] != first {
        return false;
      }
      i := i + 1;
    }
    return true;
  }

  predicate StrictlyIncreasing(xs: seq<int>) {
    forall i, j :: 0 <= i < j < |xs| ==> xs[i] < xs[j]
  }

  predicate Distinct(xs: seq<int>) {
    forall i, j :: 0 <= i < j < |xs| ==> xs[i] != xs[j]
  }

  lemma DistinctSnoc(xs: seq<int>, x: int)
    requires Distinct(xs) && x !in xs
    ensures Distinct(xs + [x])
  {
  }

  function Insert(x: int, xs: seq<int>): (r: seq<int>)
    requires StrictlyIncreasing(xs) && x !in xs
    ensures StrictlyIncreasing(r) && |r| == |xs| + 1
    ensures forall y :: y in r <==> y == x || y in xs
  {
    if |xs| == 0 || x < xs[0] then [x] + xs
    else
      assert forall y :: y in xs[1..] ==> xs[0] < y;
      var rest := Insert(x, xs[1..]);
      assert forall k :: 0 <= k < |rest| ==> rest[k] in rest;
      [xs[0]] + rest
  }

  /** `Collections.sort` of a list of distinct keys: every key exactly once,
      ascending. */
  function SortAddresses(xs: seq<int>): (r: seq<int>)
    requires Distinct(xs)
    ensures StrictlyIncreasing(r) && |r| == |xs|
    ensures forall y :: y in r <==> y in xs
  {
    if |xs| == 0 then []
    else
      var front := xs[..|xs| - 1];
      assert forall y :: y in xs <==> y in front || y == xs[|xs| - 1];
      Insert(xs[|xs| - 1], SortAddresses(front))
  }

  /** Bit `i % 8` of byte `i / 8`: the Modbus LSB-first coil order. */
  function CoilBit(bytes: seq<bv8>, i: nat): bool
    requires i / 8 < |bytes|
  {
    bytes[i / 8] & ((1 as bv8) << (i % 8)) != 0
  }

  /** The first `quantity` coils of a packed byte string, as the formatters
      unpack them. */
  function UnpackCoils(bytes: seq<bv8>, quantity: nat): (bits: seq<bool>)
    requires quantity <= 8 * |bytes|
    ensures |bits| == quantity
    ensures forall i :: 0 <= i < quantity ==> bits[i] == CoilBit(bytes, i)
  {
    seq(quantity, i requires 0 <= i < quantity => CoilBit(bytes, i))
  }

  /** The distinct observed addresses, in order of first observation. */
  function FirstSeen(obs: seq<Observation>): (r: seq<int>)
    ensures Distinct(r)
    ensures forall a :: a in r <==> a in AddressesOf(obs)
  {
    if |obs| == 0 then []
    else
      var front := FirstSeen(obs[..|obs| - 1]);
      assert obs == obs[..|obs| - 1] + [obs[|obs| - 1]];
      AddressesOfSnoc(obs[..|obs| - 1], obs[|obs| - 1]);
      if obs[|obs| - 1].address in front then front else front + [obs[|obs| - 1].address]
  }

  /** The observed addresses, ascending. */
  function Ascending(obs: seq<Observation>): (r: seq<int>)
    ensures StrictlyIncreasing(r)
    ensures forall a :: a in r <==> a in AddressesOf(obs)
  {
    SortAddresses(FirstSeen(obs))
  }

  /** Two ascending lists with the same elements are the same list. */
  lemma {:induction false} AscendingUnique(a: seq<int>, b: seq<int>)
    requires StrictlyIncreasing(a) && StrictlyIncreasing(b)
    requires forall x :: x in a <==> x in b
    ensures a == b
  {
    assert |a| > 0 ==> a[0] in a && a[0] in b;
    assert |b| > 0 ==> b[0] in b && b[0] in a;
    if |a| > 0 {
      assert a[0] in b && b[0] in a;
      assert a[0] == b[0];
      assert forall x :: x in a[1..] <==> x in a && x != a[0];
      assert forall x :: x in b[1..] <==> x in b && x != b[0];
      AscendingUnique(a[1..], b[1..]);
      assert a == [a[0]] + a[1..];
      assert b == [b[0]] + b[1..];
    }
  }

  lemma {:induction false} NoObservations(results: seq<ScanResult>)
    requires EvenLengths(results)
    ensures |Observations(results)| == 0 <==> forall k :: 0 <= k < |results| ==> |results[k].registers| == 0
  {
    if |results| > 0 {
      var n := |results| - 1;
      var front, last := results[..n], results[n];
      NoObservations(front);
      assert Observations(results) == Observations(front) + WindowObservations(last);
      PairsEmpty(last.address, last.registers);
      if forall k :: 0 <= k < |results| ==> |results[k].registers| == 0 {
        forall k | 0 <= k < |front| ensures |front[k].registers| == 0 {
          assert front[k] == results[k];
        }
      } else {
        var k :| 0 <= k < |results| && |results[k].registers| != 0;
        if k < n {
          assert front[k] == results[k];
        }
      }
    }
  }

  lemma PairsEmpty(address: int, bytes: seq<bv8>)
    requires |bytes| % 2 == 0
    ensures |Pairs(address, bytes)| == 0 <==> |bytes| == 0
  {
  }

  lemma NoneObserved(obs: seq<Observation>, m: map<int, seq<Reading>>)
    requires m.Keys == AddressesOf(obs) && |m| == 0
    ensures |obs| == 0
  {
    assert |obs| > 0 ==> obs[0].address in AddressesOf(obs);
  }

  lemma SomeObserved(obs: seq<Observation>, m: map<int, seq<Reading>>)
    requires m.Keys == AddressesOf(obs) && |m| > 0
    ensures |obs| > 0
  {
    var a :| a in m;
  }

  /** The per-address map the aggregation builds, as a value. */
  function ReadingsMap(obs: seq<Observation>): map<int, seq<Reading>> {
    map a | a in AddressesOf(obs) :: ReadingsAt(obs, a)
  }
}
