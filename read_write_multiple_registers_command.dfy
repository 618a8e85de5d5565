/**
 * `rwmr` (function code 23, Read/Write Multiple Registers, section 6.17 of
 * the MODBUS Application Protocol Specification V1.1b3): the write list is
 * checked against the write quantity, then each value goes through
 * `Integer.parseInt` (plain decimal, no `0x` prefix) and is written
 * big-endian into a `2 * writeQuantity` byte array. The read half and the
 * table of the response are the client's and the formatter's part.
 */
module ReadWriteMultipleRegistersCommand {
  import opened Wrappers
  import opened JavaText
  import opened ValueParser
  import opened RequestValues

  function CountMismatch(count: int, writeQuantity: int): string {
    "number of write values (" + IntToString(count) + ") does not match write quantity (" + IntToString(writeQuantity) + ")"
  }

  /** `Integer.parseInt(s)`, its `NumberFormatException` carried as the
      error message. */
  function ParseDecimal(s: string): (r: Result<int, string>)
    ensures r.Ok? <==> ParseInt(s, 10).Some?
    ensures r.Ok? ==> r.value == ParseInt(s, 10).value
    ensures r.Err? ==> r.error == NumberFormatMessage(s, 10)
  {
    match ParseInt(s, 10)
    case Some(v) => Ok(v)
    case None => Err(NumberFormatMessage(s, 10))
  }

  /** `Integer.parseInt(valueStrings[i].trim())`. */
  function DecimalToken(token: string): Result<int, string> {
    ParseDecimal(Trim(token))
  }

  /** The write bytes of the request, or the message of the exception that
      aborts the command before any request is built. */
  method WriteValues(writeValues: string, writeQuantity: int) returns (r: Result<seq<bv8>, string>)
    ensures |Tokens(writeValues)| != writeQuantity ==> r == Err(CountMismatch(|Tokens(writeValues)|, writeQuantity))
    ensures |Tokens(writeValues)| == writeQuantity ==> Encodes(r, ParseEach(Tokens(writeValues), DecimalToken))
  {
    var valueStrings := Split(writeValues, ',');
    if |valueStrings| != writeQuantity {
      return Err(CountMismatch(|valueStrings|, writeQuantity));
    }
    r := EncodeRegisters(valueStrings, DecimalToken);
  }

  /** A `0x` token that `wmr` reads as hex is rejected here: `0x` followed
      by the zero-padded hex digits of `n` is the register value `n` for
      `wmr` and a `NumberFormatException` for `rwmr`. */
  lemma HexOnlyForWriteMultiple(n: nat, width: nat, x: char)
    requires n <= IntMax && (x == 'x' || x == 'X')
    ensures ParseRegisterValue(['0', x] + ZeroPad(ToDigits(n, 16), width)) == Ok(n)
    ensures DecimalToken(['0', x] + ZeroPad(ToDigits(n, 16), width)).Err?
  {
    RegisterHexForm(n, width, x);
    var hex := ZeroPad(ToDigits(n, 16), width);
    ZeroPadValue(ToDigits(n, 16), width, 16);
    DigitNotTrimmable(hex[0]);
    DigitNotTrimmable(hex[|hex| - 1]);
    PrefixedTrim(hex, x);
    PrefixRejected(['0', x] + hex);
  }

  /** A token whose second character is `x` or `X` is no decimal number. */
  lemma PrefixRejected(token: string)
    requires |token| >= 2 && (token[1] == 'x' || token[1] == 'X')
    ensures ParseDecimal(token).Err?
  {
    assert !(0 <= DigitValue(token[1]) < 10);
  }

  /** On a token without the `0x` prefix, `wmr`'s register reader and
      `rwmr`'s decimal reader agree: both succeed or both fail, with the
      same value. */
  lemma BareRegisterIsDecimal(token: string)
    requires !StartsWith(Lower(Trim(token)), "0x")
    ensures ParseRegisterValue(token).Ok? <==> DecimalToken(token).Ok?
    ensures ParseRegisterValue(token).Ok? ==> ParseRegisterValue(token).value == DecimalToken(token).value
  {
  }
}
