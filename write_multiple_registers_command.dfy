/**
 * `wmr` (function code 16, Write Multiple Registers, section 6.12 of the
 * MODBUS Application Protocol Specification V1.1b3): the value list is
 * checked against the quantity, then each value goes through
 * `parseRegisterValue` (decimal or `0x` hex) and is written big-endian into
 * a `2 * quantity` byte array. Sending the request is the client's part.
 */
module WriteMultipleRegistersCommand {
  import opened Wrappers
  import opened JavaText
  import opened ValueParser
  import opened RequestValues

  function CountMismatch(count: int, quantity: int): string {
    "number of values (" + IntToString(count) + ") does not match quantity (" + IntToString(quantity) + ")"
  }

  /** `parseRegisterValue(valueStrings[i].trim())`. */
  function RegisterToken(token: string): Result<int, string> {
    ParseRegisterValue(Trim(token))
  }

  /** The register bytes of the request, or the message of the exception
      that aborts the command before any request is built. */
  method RegisterValues(values: string, quantity: int) returns (r: Result<seq<bv8>, string>)
    ensures |Tokens(values)| != quantity ==> r == Err(CountMismatch(|Tokens(values)|, quantity))
    ensures |Tokens(values)| == quantity ==> Encodes(r, ParseEach(Tokens(values), RegisterToken))
  {
    var valueStrings := Split(values, ',');
    if |valueStrings| != quantity {
      return Err(CountMismatch(|valueStrings|, quantity));
    }
    r := EncodeRegisters(valueStrings, RegisterToken);
  }
}
