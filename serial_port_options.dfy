/**
 * Serial line settings shared by the client and the server commands: the
 * raw option values and their validation into the serial port's data
 * bits, stop bits and parity. Each failure is an `IllegalArgumentException`
 * whose message the `Err` carries.
 */
module SerialPortOptions {
  import opened Wrappers
  import opened JavaText

  /** The stop-bit settings of the serial port. */
  datatype StopBits = OneStopBit | TwoStopBits

  /** The parity settings of the serial port. */
  datatype Parity = NoParity | EvenParity | OddParity

  /** RS-485 mode as handed to the serial port: RTS polarity, bus
      termination, receive during transmit and the two delays in
      microseconds. */
  datatype Rs485Mode = Rs485Mode(rtsActiveHigh: bool, termination: bool, rxDuringTx: bool, delayBefore: int, delayAfter: int)

  /** The option values as given on the command line. */
  datatype SerialSettings = SerialSettings(
    baudRate: int,
    dataBits: int,
    parity: string,
    stopBits: int,
    rs485: bool,
    rs485RtsActiveHigh: bool,
    rs485Termination: bool,
    rs485RxDuringTx: bool,
    rs485DelayBefore: int,
    rs485DelayAfter: int)

  /** 9600 baud, 8 data bits, parity `N`, 1 stop bit, RS-485 off. */
  const Defaults: SerialSettings := SerialSettings(9600, 8, "N", 1, false, false, false, false, 0, 0)

  const DataBitsError: string := "data bits must be 5, 6, 7, or 8"
  const StopBitsError: string := "stop bits must be 1 or 2"
  const ParityError: string := "parity must be N, E, or O"

  /** `resolveDataBits`: the value itself when it lies in 5..8. */
  function ResolveDataBits(o: SerialSettings): (r: Result<int, string>)
    ensures r.Ok? <==> 5 <= o.dataBits <= 8
    ensures r.Ok? ==> r.value == o.dataBits
    ensures r.Err? ==> r.error == DataBitsError
  {
    if o.dataBits < 5 || o.dataBits > 8 then Err(DataBitsError) else Ok(o.dataBits)
  }

  /** `resolveStopBits`: 1 and 2 are the only accepted values. */
  function ResolveStopBits(o: SerialSettings): (r: Result<StopBits, string>)
    ensures r == Ok(OneStopBit) <==> o.stopBits == 1
    ensures r == Ok(TwoStopBits) <==> o.stopBits == 2
    ensures r.Err? <==> o.stopBits != 1 && o.stopBits != 2
    ensures r.Err? ==> r.error == StopBitsError
  {
    match o.stopBits
    case 1 => Ok(OneStopBit)
    case 2 => Ok(TwoStopBits)
    case _ => Err(StopBitsError)
  }

  /** `resolveParity`: trim and upper-case, then `N`, `E` or `O`. */
  function ResolveParity(o: SerialSettings): (r: Result<Parity, string>)
    ensures r == Ok(NoParity) <==> Upper(Trim(o.parity)) == "N"
    ensures r == Ok(EvenParity) <==> Upper(Trim(o.parity)) == "E"
    ensures r == Ok(OddParity) <==> Upper(Trim(o.parity)) == "O"
    ensures r.Err? ==> r.error == ParityError
  {
    var normalized := Upper(Trim(o.parity));
    if normalized == "N" then Ok(NoParity)
    else if normalized == "E" then Ok(EvenParity)
    else if normalized == "O" then Ok(OddParity)
    else Err(ParityError)
  }

  /** `configureRs485`: the parameters handed to the serial port, or `None`
      when RS-485 mode is off and the port is left alone. */
  function Rs485Parameters(o: SerialSettings): (m: Option<Rs485Mode>)
    ensures m.Some? <==> o.rs485
    ensures m.Some? ==> m.value == Rs485Mode(o.rs485RtsActiveHigh, o.rs485Termination, o.rs485RxDuringTx, o.rs485DelayBefore, o.rs485DelayAfter)
  {
    if o.rs485 then Some(Rs485Mode(o.rs485RtsActiveHigh, o.rs485Termination, o.rs485RxDuringTx, o.rs485DelayBefore, o.rs485DelayAfter))
    else None
  }

  /** Each of the three letters names a different parity. */
  lemma ParitiesDistinct(a: SerialSettings, b: SerialSettings)
    requires ResolveParity(a).Ok? && ResolveParity(b).Ok?
    ensures ResolveParity(a) == ResolveParity(b) <==> Upper(Trim(a.parity)) == Upper(Trim(b.parity))
  {
  }

  /** A parity letter is accepted in either case and with any padding of
      spaces and control characters around it. */
  lemma ParityAnyCaseAnyPadding(o: SerialSettings, pre: string, letter: char, post: string)
    requires forall i :: 0 <= i < |pre| ==> Trimmable(pre[i])
    requires forall i :: 0 <= i < |post| ==> Trimmable(post[i])
    requires letter in "nNeEoO"
    requires o.parity == pre + [letter] + post
    ensures ResolveParity(o).Ok?
    ensures ResolveParity(o) == Ok(NoParity) <==> letter == 'n' || letter == 'N'
    ensures ResolveParity(o) == Ok(EvenParity) <==> letter == 'e' || letter == 'E'
  {
    TrimPadded(pre, [letter], post);
    assert Upper([letter]) == [UpperChar(letter)];
  }

  /** The default settings are all valid. */
  lemma DefaultsResolve()
    ensures ResolveDataBits(Defaults) == Ok(8)
    ensures ResolveStopBits(Defaults) == Ok(OneStopBit)
    ensures ResolveParity(Defaults) == Ok(NoParity)
    ensures Rs485Parameters(Defaults) == None
  {
    ParityAnyCaseAnyPadding(Defaults, [], 'N', []);
  }
}
