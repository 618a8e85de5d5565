/**
 * `wmc` (function code 15, Write Multiple Coils, section 6.11 of the
 * MODBUS Application Protocol Specification V1.1b3): the value list is
 * checked against the quantity, each value goes through `parseCoilValue`,
 * and the coils are packed LSB first into `(quantity + 7) / 8` bytes. The
 * formatters unpack coil bytes with the same rule (`OutputCommon.CoilBit`),
 * so packing and unpacking are inverse.
 */
module WriteMultipleCoilsCommand {
  import opened Wrappers
  import opened JavaText
  import opened ValueParser
  import opened RequestValues
  import opened OutputCommon

  function CountMismatch(count: int, quantity: int): string {
    "number of values (" + IntToString(count) + ") does not match quantity (" + IntToString(quantity) + ")"
  }

  /** `parseCoilValue(valueStrings[i].trim())`. */
  function CoilToken(token: string): Result<bool, string> {
    ParseCoilValue(Trim(token))
  }

  /** `bytes` holds `bits` LSB first: coil `i` is bit `i % 8` of byte
      `i / 8`, the byte count is `(|bits| + 7) / 8` and the padding bits
      of the last byte are 0. */
  predicate PacksLsbFirst(bytes: seq<bv8>, bits: seq<bool>) {
    |bytes| == (|bits| + 7) / 8
    && forall i :: 0 <= i < 8 * |bytes| ==> CoilBit(bytes, i) == (i < |bits| && bits[i])
  }

  /** The coil bytes of the request, or the message of the exception that
      aborts the command before any request is built. */
  method CoilRequestBytes(values: string, quantity: int) returns (r: Result<seq<bv8>, string>)
    ensures |Tokens(values)| != quantity ==> r == Err(CountMismatch(|Tokens(values)|, quantity))
    ensures |Tokens(values)| == quantity ==>
      var parsed := ParseEach(Tokens(values), CoilToken);
      (r.Err? <==> parsed.Err?)
      && (r.Err? ==> r.error == parsed.error)
      && (r.Ok? ==> PacksLsbFirst(r.value, parsed.value))
  {
    var valueStrings := Split(values, ',');
    if |valueStrings| != quantity {
      return Err(CountMismatch(|valueStrings|, quantity));
    }
    var coilValues := ParseCoils(valueStrings, CoilToken);
    if coilValues.Err? {
      return Err(coilValues.error);
    }
    var coilBytes := PackCoils(coilValues.value);
    r := Ok(coilBytes);
  }

  /** The first loop, filling `coilValues` field by field. */
  method ParseCoils(valueStrings: seq<string>, parse: string -> Result<bool, string>) returns (r: Result<seq<bool>, string>)
    ensures r == ParseEach(valueStrings, parse)
  {
    var quantity := |valueStrings|;
    var coilValues := new bool[quantity];
    var i := 0;
    while i < quantity
      invariant 0 <= i <= quantity
      invariant forall j :: 0 <= j < i ==> parse(valueStrings[j]) == Ok(coilValues[j])
    {
      var parsed := parse(valueStrings[i]);
      if parsed.Err? {
        assert ParseEach(valueStrings, parse) == Err(parsed.error) by {
          FirstError(valueStrings, parse, i);
        }
        return Err(parsed.error);
      }
      ghost var before := coilValues[..];
      coilValues[i] := parsed.value;
      assert forall j :: 0 <= j < i + 1 ==> parse(valueStrings[j]) == Ok(coilValues[j]) by {
        forall j | 0 <= j < i + 1
          ensures parse(valueStrings[j]) == Ok(coilValues[j])
        {
          if j < i {
            assert coilValues[j] == before[j];
          }
        }
      }
      i := i + 1;
    }
    assert ParseEach(valueStrings, parse) == Ok(coilValues[..]) by {
      AllParsed(valueStrings, parse, coilValues[..]);
    }
    r := Ok(coilValues[..]);
  }

  /** The second loop: OR the bit of every true coil into its byte. */
  method PackCoils(coilValues: seq<bool>) returns (packed: seq<bv8>)
    ensures PacksLsbFirst(packed, coilValues)
  {
    var quantity := |coilValues|;
    var byteCount := (quantity + 7) / 8;
    var coilBytes := new bv8[byteCount](_ => 0);
    assert PackedUpTo(coilBytes[..], coilValues, 0) by {
      NothingPacked(coilBytes[..], coilValues);
    }
    var i := 0;
    while i < quantity
      invariant 0 <= i <= quantity
      invariant PackedUpTo(coilBytes[..], coilValues, i)
    {
      ghost var before := coilBytes[..];
      if coilValues[i] {
        var byteIndex := i / 8;
        var bitIndex := i % 8;
        coilBytes[byteIndex] := coilBytes[byteIndex] | ((1 as bv8) << bitIndex);
      }
      assert PackedUpTo(coilBytes[..], coilValues, i + 1) by {
        PackStep(before, coilValues, i);
        assert coilBytes[..] == Packed(before, coilValues, i);
      }
      i := i + 1;
    }
    packed := coilBytes[..];
  }

  /** Coils `0..i-1` are in `bytes`, and no other bit is set. */
  predicate PackedUpTo(bytes: seq<bv8>, bits: seq<bool>, i: int) {
    forall k :: 0 <= k < 8 * |bytes| ==> CoilBit(bytes, k) == (k < i && k < |bits| && bits[k])
  }

  /** The bytes after one pass for coil `i`. */
  function Packed(bytes: seq<bv8>, bits: seq<bool>, i: int): seq<bv8>
    requires 0 <= i < |bits| && i / 8 < |bytes|
  {
    if bits[i] then bytes[i / 8 := bytes[i / 8] | ((1 as bv8) << (i % 8))] else bytes
  }

  lemma NothingPacked(bytes: seq<bv8>, bits: seq<bool>)
    requires forall n :: 0 <= n < |bytes| ==> bytes[n] == 0
    ensures PackedUpTo(bytes, bits, 0)
  {
    forall k | 0 <= k < 8 * |bytes|
      ensures !CoilBit(bytes, k)
    {
      assert bytes[k / 8] == 0;
    }
  }

  /** One pass of the packing loop adds coil `i` and nothing else. */
  lemma PackStep(bytes: seq<bv8>, bits: seq<bool>, i: int)
    requires 0 <= i < |bits| && i / 8 < |bytes|
    requires PackedUpTo(bytes, bits, i)
    ensures PackedUpTo(Packed(bytes, bits, i), bits, i + 1)
  {
    var after := Packed(bytes, bits, i);
    forall k | 0 <= k < 8 * |after|
      ensures CoilBit(after, k) == (k < i + 1 && k < |bits| && bits[k])
    {
      SameBit(k, i);
      assert CoilBit(bytes, k) == (k < i && k < |bits| && bits[k]);
      if bits[i] && k / 8 == i / 8 {
        SetBit(bytes[i / 8], i % 8, k % 8);
        assert after[k / 8] == bytes[i / 8] | ((1 as bv8) << (i % 8));
      } else {
        assert after[k / 8] == bytes[k / 8];
      }
    }
  }

  /** Two coil indexes name the same bit of the same byte only when equal. */
  lemma SameBit(k: int, i: int)
    requires 0 <= k && 0 <= i
    ensures k / 8 == i / 8 && k % 8 == i % 8 <==> k == i
  {
  }

  /** OR-ing bit `j` into a byte sets bit `j` and leaves the others. */
  lemma SetBit(b: bv8, j: int, k: int)
    requires 0 <= j < 8 && 0 <= k < 8
    ensures ((b | ((1 as bv8) << j)) & ((1 as bv8) << k) != 0) == ((b & ((1 as bv8) << k) != 0) || j == k)
  {
  }

  /** Unpacking the packed bytes with the formatters' LSB-first rule gives
      back the coil values. */
  lemma PackedUnpacks(bytes: seq<bv8>, bits: seq<bool>)
    requires PacksLsbFirst(bytes, bits)
    ensures |bits| <= 8 * |bytes|
    ensures UnpackCoils(bytes, |bits|) == bits
  {
    var u := UnpackCoils(bytes, |bits|);
    forall i | 0 <= i < |bits|
      ensures u[i] == bits[i]
    {
      assert CoilBit(bytes, i) == bits[i];
    }
  }

  /** The packed bytes are determined by the coil values. */
  lemma PackingUnique(a: seq<bv8>, b: seq<bv8>, bits: seq<bool>)
    requires PacksLsbFirst(a, bits) && PacksLsbFirst(b, bits)
    ensures a == b
  {
    forall n | 0 <= n < |a|
      ensures a[n] == b[n]
    {
      forall j | 0 <= j < 8
        ensures BitOf(a[n], j) == BitOf(b[n], j)
      {
        var i := 8 * n + j;
        assert i / 8 == n && i % 8 == j;
        assert CoilBit(a, i) == CoilBit(b, i);
      }
      BitsDetermineByte(a[n], b[n]);
    }
  }

  /** Bit `j` of `x`, as `CoilBit` tests it. */
  predicate BitOf(x: bv8, j: int)
    requires 0 <= j < 8
  {
    x & ((1 as bv8) << j) != 0
  }

  /** A byte is determined by its eight bits. */
  lemma BitsDetermineByte(x: bv8, y: bv8)
    requires forall j :: 0 <= j < 8 ==> BitOf(x, j) == BitOf(y, j)
    ensures x == y
  {
    assert BitOf(x, 0) == BitOf(y, 0) && BitOf(x, 1) == BitOf(y, 1);
    assert BitOf(x, 2) == BitOf(y, 2) && BitOf(x, 3) == BitOf(y, 3);
    assert BitOf(x, 4) == BitOf(y, 4) && BitOf(x, 5) == BitOf(y, 5);
    assert BitOf(x, 6) == BitOf(y, 6) && BitOf(x, 7) == BitOf(y, 7);
  }
}
