/**
 * `DefaultOutputContext`: the commands' single output sink. Each event is
 * handed to the configured formatter together with the output options,
 * and the lines the formatter prints go to standard output, except
 * warnings and errors, which go to standard error. Tables and scan
 * results are described through builders whose `render` passes the
 * last-set fields on. The two streams are sequences of lines; the clock is
 * the `now` parameter.
 */
module DefaultOutputContext {
  import opened Wrappers
  import opened JavaText
  import opened ScanCommand
  import opened OutputCommon
  import JsonFormatter
  import HumanFormatter

  datatype Stream = Stdout | Stderr

  /** The stream a message of type `t` goes to. */
  function MessageStream(t: OutputType): (s: Stream)
    ensures s == Stderr <==> t == Warning || t == Error
  {
    match t
    case Warning => Stderr
    case Error => Stderr
    case _ => Stdout
  }

  /** The formatter the context delegates to. */
  datatype Formatter = JsonOut(json: JsonFormatter.JsonFormatter) | HumanOut(human: HumanFormatter.HumanFormatter)
  {
    function Format(): OutputFormat {
      if JsonOut? then Json else Human
    }

    function Object(): object {
      match this
      case JsonOut(j) => j
      case HumanOut(h) => h
    }
  }

  // ---------------------------------------------------------------------
  // What each formatter prints for an event
  // ---------------------------------------------------------------------

  /** The lines `formatProtocol` prints: one record or line, none in quiet
      mode. */
  function ProtocolLines(format: OutputFormat, iteration: Option<int>, pdu: Pdu, direction: Direction,
                         timestamp: Option<Instant>, now: Instant, options: OutputOptions): (lines: seq<string>)
    ensures lines == [] <==> options.quiet
    ensures |lines| <= 1
  {
    if options.quiet then []
    else match format
      case Json => [JsonFormatter.ToJson(JsonFormatter.ProtocolRecord(Effective(timestamp, now).iso, iteration, direction, pdu))]
      case Human => [HumanFormatter.TimestampPrefix(Effective(timestamp, now).display, iteration) + Arrow(direction) + " " + pdu.text]
  }

  /** The lines `formatMessage` prints: one, except for an INFO message in
      quiet mode. */
  function MessageLines(format: OutputFormat, iteration: Option<int>, t: OutputType, message: string,
                        now: Instant, options: OutputOptions): (lines: seq<string>)
    ensures lines == [] <==> options.quiet && t == Info
    ensures |lines| <= 1
  {
    if options.quiet && t == Info then []
    else match format
      case Json => [JsonFormatter.ToJson(JsonFormatter.MessageRecord(now.iso, iteration, t, message))]
      case Human => [HumanFormatter.TimestampPrefix(now.display, iteration) + message]
  }

  /** The lines `formatRegisterTable` prints; quiet mode has no effect. */
  function RegisterTableLines(format: OutputFormat, iteration: Option<int>, registers: seq<bv8>, startAddress: int,
                              timestamp: Option<Instant>, now: Instant): (lines: seq<string>)
    ensures lines != []
  {
    match format
    case Json => [JsonFormatter.ToJson(JsonFormatter.RegisterTableRecord(Effective(timestamp, now).iso, iteration, registers, startAddress))]
    case Human => HumanFormatter.TableLines(HumanFormatter.RegisterTable, HumanFormatter.RegisterRows(registers, startAddress))
  }

  /** What `formatCoilTable` needs of its arguments: enough bytes for
      `quantity` coils, and for the human table a quantity that is not
      negative (it allocates `new boolean[quantity]`). */
  predicate CoilArguments(format: OutputFormat, coilBytes: seq<bv8>, quantity: int) {
    quantity <= 8 * |coilBytes| && (format == Human ==> 0 <= quantity)
  }

  /** The lines `formatCoilTable` prints; quiet mode has no effect. */
  function CoilTableLines(format: OutputFormat, iteration: Option<int>, coilBytes: seq<bv8>, startAddress: int,
                          quantity: int, timestamp: Option<Instant>, now: Instant): (lines: seq<string>)
    requires CoilArguments(format, coilBytes, quantity)
    ensures lines != []
  {
    match format
    case Json => [JsonFormatter.ToJson(JsonFormatter.CoilTableRecord(Effective(timestamp, now).iso, iteration, coilBytes, startAddress, quantity))]
    case Human => HumanFormatter.TableLines(HumanFormatter.CoilTable, HumanFormatter.CoilRows(UnpackCoils(coilBytes, quantity), startAddress))
  }

  /** The lines `formatScanResults` prints: nothing for a null or empty
      list, whatever the quiet flag. */
  function ScanResultLines(format: OutputFormat, iteration: Option<int>, results: Option<seq<ScanResult>>,
                           now: Instant, options: OutputOptions): (lines: seq<string>)
    requires results.Some? ==> EvenLengths(results.value)
    ensures results.None? || results.value == [] ==> lines == []
  {
    match format
    case Json => JsonFormatter.ScanLines(results, now.iso, iteration)
    case Human => HumanFormatter.ScanOutput(results, options.colorsEnabled)
  }

  // ---------------------------------------------------------------------
  // The context
  // ---------------------------------------------------------------------

  class DefaultOutputContext {
    const formatter: Formatter
    const options: OutputOptions
    var stdout: seq<string>
    var stderr: seq<string>

    /** The context of `Modbus.main`, writing to fresh streams. */
    constructor(formatter: Formatter, options: OutputOptions)
      ensures this.formatter == formatter && this.options == options
      ensures stdout == [] && stderr == []
    {
      this.formatter := formatter;
      this.options := options;
      stdout := [];
      stderr := [];
    }

    /** The iteration tag held by the formatter. */
    function Iteration(): Option<int>
      reads formatter.Object()
    {
      match formatter
      case JsonOut(j) => j.currentIteration
      case HumanOut(h) => h.currentIteration
    }

    /** `setIteration` forwards the tag unchanged to the formatter. */
    method SetIteration(iteration: Option<int>)
      modifies formatter.Object()
      ensures Iteration() == iteration
    {
      match formatter
      case JsonOut(j) => j.SetIteration(iteration);
      case HumanOut(h) => h.SetIteration(iteration);
    }

    method Protocol(pdu: Pdu, direction: Direction, timestamp: Option<Instant>, now: Instant)
      modifies this
      ensures stdout == old(stdout) + ProtocolLines(formatter.Format(), Iteration(), pdu, direction, timestamp, now, options)
      ensures stderr == old(stderr)
    {
      var lines;
      match formatter {
        case JsonOut(j) => lines := j.FormatProtocol(pdu, direction, timestamp, now, options);
        case HumanOut(h) => lines := h.FormatProtocol(pdu, direction, timestamp, now, options);
      }
      stdout := stdout + lines;
    }

    /** The formatter's lines for a message, whichever formatter it is. */
    method MessageFor(t: OutputType, message: string, now: Instant) returns (lines: seq<string>)
      ensures lines == MessageLines(formatter.Format(), Iteration(), t, message, now, options)
    {
      match formatter
      case JsonOut(j) => lines := j.FormatMessage(t, message, now, options);
      case HumanOut(h) => lines := h.FormatMessage(t, message, now, options);
    }

    /** `info`: the message is `String.format(format, args)`, written to
        stdout; when formatting throws, nothing is written. */
    method Info(format: string, args: seq<FormatArg>, now: Instant) returns (formatted: bool)
      modifies this
      ensures formatted <==> Format(format, args).Some?
      ensures formatted ==> stdout == old(stdout) + MessageLines(formatter.Format(), Iteration(), OutputType.Info, Format(format, args).value, now, options)
      ensures !formatted ==> stdout == old(stdout)
      ensures stderr == old(stderr)
    {
      var message := Format(format, args);
      if message.None? {
        return false;
      }
      var lines := MessageFor(OutputType.Info, message.value, now);
      stdout := stdout + lines;
      return true;
    }

    /** `success`: the message is `String.format(format, args)`, written to
        stdout; when formatting throws, nothing is written. */
    method Success(format: string, args: seq<FormatArg>, now: Instant) returns (formatted: bool)
      modifies this
      ensures formatted <==> Format(format, args).Some?
      ensures formatted ==> stdout == old(stdout) + MessageLines(formatter.Format(), Iteration(), OutputType.Success, Format(format, args).value, now, options)
      ensures !formatted ==> stdout == old(stdout)
      ensures stderr == old(stderr)
    {
      var message := Format(format, args);
      if message.None? {
        return false;
      }
      var lines := MessageFor(OutputType.Success, message.value, now);
      stdout := stdout + lines;
      return true;
    }

    /** `warning`: the message is `String.format(format, args)`, written to
        stderr; when formatting throws, nothing is written. */
    method Warning(format: string, args: seq<FormatArg>, now: Instant) returns (formatted: bool)
      modifies this
      ensures formatted <==> Format(format, args).Some?
      ensures formatted ==> stderr == old(stderr) + MessageLines(formatter.Format(), Iteration(), OutputType.Warning, Format(format, args).value, now, options)
      ensures !formatted ==> stderr == old(stderr)
      ensures stdout == old(stdout)
    {
      var message := Format(format, args);
      if message.None? {
        return false;
      }
      var lines := MessageFor(OutputType.Warning, message.value, now);
      stderr := stderr + lines;
      return true;
    }

    /** `error`: the message is `String.format(format, args)`, written to
        stderr; when formatting throws, nothing is written. */
    method Error(format: string, args: seq<FormatArg>, now: Instant) returns (formatted: bool)
      modifies this
      ensures formatted <==> Format(format, args).Some?
      ensures formatted ==> stderr == old(stderr) + MessageLines(formatter.Format(), Iteration(), OutputType.Error, Format(format, args).value, now, options)
      ensures !formatted ==> stderr == old(stderr)
      ensures stdout == old(stdout)
    {
      var message := Format(format, args);
      if message.None? {
        return false;
      }
      var lines := MessageFor(OutputType.Error, message.value, now);
      stderr := stderr + lines;
      return true;
    }

    /** A message goes to the stream `MessageStream` names, and the other
        stream is left alone. */
    method Message(t: OutputType, format: string, args: seq<FormatArg>, now: Instant) returns (formatted: bool)
      requires t == OutputType.Info || t == OutputType.Success || t == OutputType.Warning || t == OutputType.Error
      modifies this
      ensures formatted <==> Format(format, args).Some?
      ensures !formatted ==> stdout == old(stdout) && stderr == old(stderr)
      ensures formatted && MessageStream(t) == Stdout ==>
        stdout == old(stdout) + MessageLines(formatter.Format(), Iteration(), t, Format(format, args).value, now, options)
        && stderr == old(stderr)
      ensures formatted && MessageStream(t) == Stderr ==>
        stderr == old(stderr) + MessageLines(formatter.Format(), Iteration(), t, Format(format, args).value, now, options)
        && stdout == old(stdout)
    {
      match t
      case Info => formatted := Info(format, args, now);
      case Success => formatted := Success(format, args, now);
      case Warning => formatted := Warning(format, args, now);
      case Error => formatted := Error(format, args, now);
    }

    method RegisterTable() returns (b: RegisterTableBuilder)
      ensures fresh(b) && b.context == this
      ensures b.registers == None && b.startAddress == 0 && b.timestamp == None
    {
      b := new RegisterTableBuilder(this);
    }

    method CoilTable() returns (b: CoilTableBuilder)
      ensures fresh(b) && b.context == this
      ensures b.coilBytes == None && b.startAddress == 0 && b.quantity == 0 && b.timestamp == None
    {
      b := new CoilTableBuilder(this);
    }

    method ScanResults() returns (b: ScanResultsBuilder)
      ensures fresh(b) && b.context == this && b.results == None
    {
      b := new ScanResultsBuilder(this);
    }
  }

  // ---------------------------------------------------------------------
  // The builders
  // ---------------------------------------------------------------------

  /** `RegisterTableBuilderImpl`: an unset byte array is `null`, an unset
      start address 0 and an unset timestamp `null`. */
  class RegisterTableBuilder {
    const context: DefaultOutputContext
    var registers: Option<seq<bv8>>
    var startAddress: int
    var timestamp: Option<Instant>

    constructor(context: DefaultOutputContext)
      ensures this.context == context
      ensures registers == None && startAddress == 0 && timestamp == None
    {
      this.context := context;
      registers := None;
      startAddress := 0;
      timestamp := None;
    }

    method Data(registers: seq<bv8>) returns (self: RegisterTableBuilder)
      modifies this
      ensures self == this && this.registers == Some(registers)
      ensures startAddress == old(startAddress) && timestamp == old(timestamp)
    {
      this.registers := Some(registers);
      self := this;
    }

    method StartAddress(address: int) returns (self: RegisterTableBuilder)
      modifies this
      ensures self == this && startAddress == address
      ensures registers == old(registers) && timestamp == old(timestamp)
    {
      startAddress := address;
      self := this;
    }

    method Timestamp(timestamp: Option<Instant>) returns (self: RegisterTableBuilder)
      modifies this
      ensures self == this && this.timestamp == timestamp
      ensures registers == old(registers) && startAddress == old(startAddress)
    {
      this.timestamp := timestamp;
      self := this;
    }

    /** The table of the last-set fields goes to standard output. Both
        formatters dereference the byte array, so it must have been set. */
    method Render(now: Instant)
      requires registers.Some?
      modifies context
      ensures context.stdout == old(context.stdout)
        + RegisterTableLines(context.formatter.Format(), context.Iteration(), registers.value, startAddress, timestamp, now)
      ensures context.stderr == old(context.stderr)
    {
      var lines;
      match context.formatter {
        case JsonOut(j) => lines := j.FormatRegisterTable(registers.value, startAddress, timestamp, now, context.options);
        case HumanOut(h) => lines := h.FormatRegisterTable(registers.value, startAddress, timestamp, context.options);
      }
      context.stdout := context.stdout + lines;
    }
  }

  /** `CoilTableBuilderImpl`: an unset quantity is 0 as well. */
  class CoilTableBuilder {
    const context: DefaultOutputContext
    var coilBytes: Option<seq<bv8>>
    var startAddress: int
    var quantity: int
    var timestamp: Option<Instant>

    constructor(context: DefaultOutputContext)
      ensures this.context == context
      ensures coilBytes == None && startAddress == 0 && quantity == 0 && timestamp == None
    {
      this.context := context;
      coilBytes := None;
      startAddress := 0;
      quantity := 0;
      timestamp := None;
    }

    method Data(coilBytes: seq<bv8>) returns (self: CoilTableBuilder)
      modifies this
      ensures self == this && this.coilBytes == Some(coilBytes)
      ensures startAddress == old(startAddress) && quantity == old(quantity) && timestamp == old(timestamp)
    {
      this.coilBytes := Some(coilBytes);
      self := this;
    }

    method StartAddress(address: int) returns (self: CoilTableBuilder)
      modifies this
      ensures self == this && startAddress == address
      ensures coilBytes == old(coilBytes) && quantity == old(quantity) && timestamp == old(timestamp)
    {
      startAddress := address;
      self := this;
    }

    method Quantity(quantity: int) returns (self: CoilTableBuilder)
      modifies this
      ensures self == this && this.quantity == quantity
      ensures coilBytes == old(coilBytes) && startAddress == old(startAddress) && timestamp == old(timestamp)
    {
      this.quantity := quantity;
      self := this;
    }

    method Timestamp(timestamp: Option<Instant>) returns (self: CoilTableBuilder)
      modifies this
      ensures self == this && this.timestamp == timestamp
      ensures coilBytes == old(coilBytes) && startAddress == old(startAddress) && quantity == old(quantity)
    {
      this.timestamp := timestamp;
      self := this;
    }

    /** The table of the last-set fields goes to standard output. */
    method Render(now: Instant)
      requires coilBytes.Some? && CoilArguments(context.formatter.Format(), coilBytes.value, quantity)
      modifies context
      ensures context.stdout == old(context.stdout)
        + CoilTableLines(context.formatter.Format(), context.Iteration(), coilBytes.value, startAddress, quantity, timestamp, now)
      ensures context.stderr == old(context.stderr)
    {
      var lines;
      match context.formatter {
        case JsonOut(j) => lines := j.FormatCoilTable(coilBytes.value, startAddress, quantity, timestamp, now, context.options);
        case HumanOut(h) => lines := h.FormatCoilTable(coilBytes.value, startAddress, quantity, timestamp, context.options);
      }
      context.stdout := context.stdout + lines;
    }
  }

  /** `ScanResultsBuilderImpl`: an unset list is `null`, which both
      formatters render as nothing. */
  class ScanResultsBuilder {
    const context: DefaultOutputContext
    var results: Option<seq<ScanResult>>

    constructor(context: DefaultOutputContext)
      ensures this.context == context && results == None
    {
      this.context := context;
      results := None;
    }

    method Results(results: seq<ScanResult>) returns (self: ScanResultsBuilder)
      modifies this
      ensures self == this && this.results == Some(results)
    {
      this.results := Some(results);
      self := this;
    }

    method Render(now: Instant)
      requires results.Some? ==> EvenLengths(results.value)
      modifies context
      ensures context.stdout == old(context.stdout)
        + ScanResultLines(context.formatter.Format(), context.Iteration(), results, now, context.options)
      ensures context.stderr == old(context.stderr)
    {
      var lines;
      match context.formatter {
        case JsonOut(j) => lines := j.FormatScanResults(results, now, context.options);
        case HumanOut(h) => lines := h.FormatScanResults(results, context.options);
      }
      context.stdout := context.stdout + lines;
    }
  }
}
