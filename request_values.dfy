/**
 * The comma-separated value lists of the write commands: `values.split(",")`,
 * then each field trimmed and parsed in order, the first field that does
 * not parse aborting the command with its parser's exception.
 */
module RequestValues {
  import opened Wrappers
  import opened JavaText
  import opened RegisterBytes

  /** `values.split(",")`. */
  function Tokens(values: string): seq<string> {
    Split(values, ',')
  }

  /** `parse(tokens[i])` for each field in order; the error is that of the
      first field that fails. Each command passes its parser of a trimmed
      field (`parseCoilValue(valueStrings[i].trim())` and the like). */
  function ParseEach<T>(tokens: seq<string>, parse: string -> Result<T, string>): (r: Result<seq<T>, string>)
    ensures r.Ok? <==> forall i :: 0 <= i < |tokens| ==> parse(tokens[i]).Ok?
    ensures r.Ok? ==> |r.value| == |tokens|
    ensures r.Ok? ==> forall i :: 0 <= i < |tokens| ==> parse(tokens[i]) == Ok(r.value[i])
    decreases |tokens|
  {
    if |tokens| == 0 then Ok([])
    else
      var head := parse(tokens[0]);
      if head.Err? then Err(head.error)
      else
        var rest := ParseEach(tokens[1..], parse);
        if rest.Err? then rest
        else
          assert forall i :: 1 <= i < |tokens| ==> tokens[i] == tokens[1..][i - 1];
          Ok([head.value] + rest.value)
  }

  /** When fields `0..i-1` parse and field `i` does not, the list fails with
      field `i`'s error. */
  lemma {:induction false} FirstError<T>(tokens: seq<string>, parse: string -> Result<T, string>, i: nat)
    requires i < |tokens|
    requires forall j :: 0 <= j < i ==> parse(tokens[j]).Ok?
    requires parse(tokens[i]).Err?
    ensures ParseEach(tokens, parse) == Err(parse(tokens[i]).error)
    decreases i
  {
    if i > 0 {
      assert parse(tokens[0]).Ok?;
      assert forall j :: 0 <= j < i - 1 ==> tokens[1..][j] == tokens[j + 1];
      FirstError(tokens[1..], parse, i - 1);
    }
  }

  /** When every field parses, the list is the parsed values. */
  lemma AllParsed<T>(tokens: seq<string>, parse: string -> Result<T, string>, values: seq<T>)
    requires |values| == |tokens|
    requires forall i :: 0 <= i < |tokens| ==> parse(tokens[i]) == Ok(values[i])
    ensures ParseEach(tokens, parse) == Ok(values)
  {
    var r := ParseEach(tokens, parse);
    assert r.Ok?;
    assert r.value == values;
  }

  // ---------------------------------------------------------------------
  // Register values, two bytes each, high byte first
  // ---------------------------------------------------------------------

  /** `bytes` holds `values` as 16-bit registers, high byte first. */
  predicate BigEndian(bytes: seq<bv8>, values: seq<int>) {
    |bytes| == 2 * |values|
    && forall i :: 0 <= i < |values| ==> bytes[2 * i] == HighByte(values[i]) && bytes[2 * i + 1] == LowByte(values[i])
  }

  /** `r` is the request built from the parsed list: its error, or its
      values big-endian. */
  predicate Encodes(r: Result<seq<bv8>, string>, parsed: Result<seq<int>, string>) {
    (r.Err? <==> parsed.Err?)
    && (r.Err? ==> r.error == parsed.error)
    && (r.Ok? ==> BigEndian(r.value, parsed.value))
  }

  /** The `for` loop over the fields: parse, then write the two bytes. */
  method EncodeRegisters(valueStrings: seq<string>, parse: string -> Result<int, string>) returns (r: Result<seq<bv8>, string>)
    ensures Encodes(r, ParseEach(valueStrings, parse))
  {
    var quantity := |valueStrings|;
    var registerValues := new bv8[quantity * 2];
    ghost var parsedValues: seq<int> := [];
    var i := 0;
    while i < quantity
      invariant 0 <= i <= quantity && |parsedValues| == i
      invariant forall j :: 0 <= j < i ==> parse(valueStrings[j]) == Ok(parsedValues[j])
      invariant forall k :: 0 <= k < 2 * i ==> registerValues[k] == WireByte(parsedValues, k)
    {
      var parsed := parse(valueStrings[i]);
      if parsed.Err? {
        assert ParseEach(valueStrings, parse) == Err(parsed.error) by {
          FirstError(valueStrings, parse, i);
        }
        return Err(parsed.error);
      }
      var value := parsed.value;
      ghost var before := registerValues[..];
      registerValues[i * 2] := HighByte(value);
      registerValues[i * 2 + 1] := LowByte(value);
      assert forall k :: 0 <= k < 2 * (i + 1) ==> registerValues[k] == WireByte(parsedValues + [value], k) by {
        forall k | 0 <= k < 2 * (i + 1)
          ensures registerValues[k] == WireByte(parsedValues + [value], k)
        {
          WireByteSnoc(parsedValues, value, k);
          if k < 2 * i {
            assert registerValues[k] == before[k];
          }
        }
      }
      assert forall j :: 0 <= j < i + 1 ==> parse(valueStrings[j]) == Ok((parsedValues + [value])[j]) by {
        forall j | 0 <= j < i + 1
          ensures parse(valueStrings[j]) == Ok((parsedValues + [value])[j])
        {
          if j < i {
            assert (parsedValues + [value])[j] == parsedValues[j];
          }
        }
      }
      parsedValues := parsedValues + [value];
      i := i + 1;
    }
    assert ParseEach(valueStrings, parse) == Ok(parsedValues) by {
      AllParsed(valueStrings, parse, parsedValues);
    }
    assert BigEndian(registerValues[..], parsedValues) by {
      WireBytesBigEndian(registerValues[..], parsedValues);
    }
    r := Ok(registerValues[..]);
  }

  /** Byte `k` of the encoding of `values`: the high byte of register
      `k / 2` at even `k`, its low byte at odd `k`. */
  function WireByte(values: seq<int>, k: int): bv8
    requires 0 <= k < 2 * |values|
  {
    if k % 2 == 0 then HighByte(values[k / 2]) else LowByte(values[k / 2])
  }

  /** Appending a register leaves the earlier bytes alone and adds its
      high and low byte. */
  lemma WireByteSnoc(values: seq<int>, v: int, k: int)
    requires 0 <= k < 2 * |values| + 2
    ensures k < 2 * |values| ==> WireByte(values + [v], k) == WireByte(values, k)
    ensures k == 2 * |values| ==> WireByte(values + [v], k) == HighByte(v)
    ensures k == 2 * |values| + 1 ==> WireByte(values + [v], k) == LowByte(v)
  {
  }

  lemma WireBytesBigEndian(bytes: seq<bv8>, values: seq<int>)
    requires |bytes| == 2 * |values|
    requires forall k :: 0 <= k < |bytes| ==> bytes[k] == WireByte(values, k)
    ensures BigEndian(bytes, values)
  {
    forall i | 0 <= i < |values|
      ensures bytes[2 * i] == HighByte(values[i]) && bytes[2 * i + 1] == LowByte(values[i])
    {
      assert bytes[2 * i] == WireByte(values, 2 * i);
      assert bytes[2 * i + 1] == WireByte(values, 2 * i + 1);
    }
  }

  /** Each byte pair of the request decodes to its value modulo 2^16, so
      values from 0 to 65535 arrive unchanged and -1 arrives as 65535. */
  lemma BigEndianDecodes(bytes: seq<bv8>, values: seq<int>, i: int)
    requires BigEndian(bytes, values) && 0 <= i < |values|
    ensures Decode(bytes[2 * i], bytes[2 * i + 1]) == values[i] % 65536
  {
    EncodeDecode(values[i]);
  }

  /** The register bytes are determined by the values: two arrays that
      both hold `values` big-endian are equal. */
  lemma BigEndianUnique(a: seq<bv8>, b: seq<bv8>, values: seq<int>)
    requires BigEndian(a, values) && BigEndian(b, values)
    ensures a == b
  {
    forall k | 0 <= k < |a|
      ensures a[k] == b[k]
    {
      var i := k / 2;
      assert 0 <= i < |values| && (k == 2 * i || k == 2 * i + 1);
      assert a[2 * i] == HighByte(values[i]) == b[2 * i];
    }
  }
}
