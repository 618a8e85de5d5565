/**
 * `ClientCommand`: the client lifecycle shared by every client command.
 * The endpoint is parsed, a TCP or RTU client is created, the endpoint is
 * announced, and the client is connected, used and always disconnected;
 * any exception on the way is reported through `handleException`. The
 * polling variant runs the command `count` times, `intervalMs` apart.
 *
 * What the lifecycle does is recorded as a trace of steps. The network,
 * the serial port, the clock and the command itself are outside the
 * model: their outcomes are parameters (`connectFailure`, the steps and
 * failure of the action, and one `RunOutcome` per polling iteration).
 */
module ClientCommand {
  import opened Wrappers
  import opened JavaText
  import opened SerialPortOptions
  import EndpointParser

  /** A caught exception: its `getMessage()` (`None` for `null`) and the
      text `printStackTrace` writes. */
  datatype Failure = Failure(message: Option<string>, stackTrace: string)

  /** `handleException`: the stack trace in verbose mode, otherwise the
      message, which `String.format("%s", null)` prints as `null`. */
  function ErrorText(f: Failure, verbose: bool): string {
    if verbose then f.stackTrace
    else if f.message.Some? then f.message.value
    else "null"
  }

  /** The verbose report depends only on the stack trace, the plain one
      only on the message. */
  lemma ErrorTextChoice(m1: Option<string>, t1: string, m2: Option<string>, t2: string)
    ensures t1 == t2 ==> ErrorText(Failure(m1, t1), true) == ErrorText(Failure(m2, t2), true)
    ensures m1 == m2 ==> ErrorText(Failure(m1, t1), false) == ErrorText(Failure(m2, t2), false)
    ensures m1.Some? ==> ErrorText(Failure(m1, t1), false) == m1.value
    ensures ErrorText(Failure(None, t1), false) == "null"
  {
  }

  /** The argument `handleException` formats with `"%s"`: the stack trace
      in verbose mode, otherwise `getMessage()`, which may be `null`. */
  function ErrorArg(f: Failure, verbose: bool): FormatArg {
    if verbose then Str(f.stackTrace)
    else if f.message.Some? then Str(f.message.value)
    else Null
  }

  /** The reported text is what `output.error("%s", ..)` formats. */
  lemma ErrorTextFormatted(f: Failure, verbose: bool)
    ensures Format("%s", [ErrorArg(f, verbose)]) == Some(ErrorText(f, verbose))
  {
    FormatOneString(ErrorArg(f, verbose));
  }

  /** What the lifecycle does, in order. `Info` and `ReportError` are the
      lines handed to `output.info` and `output.error`. */
  datatype Step =
    | Info(text: string)
    | ReportError(text: string)
    | Connect
    | Disconnect
    | SetIteration(iteration: int)
    | Run
    | Sleep(ms: int)

  /** The client options of the `client` command. `endpoint` is `None`
      when no endpoint was given, `port` when `--port` was not. */
  datatype ClientOptions = ClientOptions(
    endpoint: Option<string>,
    port: Option<int>,
    unitId: int,
    timeoutMs: int,
    serial: SerialSettings)

  /** A configured, not yet connected client. */
  datatype Client =
    | TcpClient(hostname: string, port: int, timeoutMs: int)
    | RtuClient(serialPort: string, baudRate: int, dataBits: int, stopBits: StopBits, parity: Parity,
                rs485: Option<Rs485Mode>, timeoutMs: int)

  /** `createClient`: a TCP client never fails to be created; an RTU client
      resolves data bits, stop bits and parity in that order, and the first
      invalid one throws. */
  function CreateClient(endpoint: EndpointParser.Endpoint, serial: SerialSettings, timeoutMs: int): (r: Result<Client, string>)
    ensures endpoint.Tcp? ==> r == Ok(TcpClient(endpoint.hostname, endpoint.port, timeoutMs))
    ensures endpoint.Rtu? ==> (r.Ok? <==> ResolveDataBits(serial).Ok? && ResolveStopBits(serial).Ok? && ResolveParity(serial).Ok?)
    ensures endpoint.Rtu? && ResolveDataBits(serial).Err? ==> r == Err(DataBitsError)
    ensures endpoint.Rtu? && ResolveDataBits(serial).Ok? && ResolveStopBits(serial).Err? ==> r == Err(StopBitsError)
    ensures endpoint.Rtu? && ResolveDataBits(serial).Ok? && ResolveStopBits(serial).Ok? && ResolveParity(serial).Err?
      ==> r == Err(ParityError)
    ensures endpoint.Rtu? && r.Ok? ==>
      r.value == RtuClient(endpoint.serialPort, serial.baudRate, serial.dataBits, ResolveStopBits(serial).value,
                           ResolveParity(serial).value, Rs485Parameters(serial), timeoutMs)
  {
    match endpoint
    case Tcp(hostname, port) => Ok(TcpClient(hostname, port, timeoutMs))
    case Rtu(serialPort) =>
      var dataBits := ResolveDataBits(serial);
      if dataBits.Err? then Err(dataBits.error)
      else
        var stopBits := ResolveStopBits(serial);
        if stopBits.Err? then Err(stopBits.error)
        else
          var parity := ResolveParity(serial);
          if parity.Err? then Err(parity.error)
          else Ok(RtuClient(serialPort, serial.baudRate, dataBits.value, stopBits.value, parity.value,
                            Rs485Parameters(serial), timeoutMs))
  }

  /** `outputEndpointInfo`. */
  function EndpointInfo(endpoint: EndpointParser.Endpoint, unitId: int, rs485: bool): string {
    match endpoint
    case Tcp(hostname, port) =>
      "Hostname: " + hostname + ":" + IntToString(port) + ", Unit ID: " + IntToString(unitId)
    case Rtu(serialPort) =>
      "Serial Port: " + serialPort + ", Unit ID: " + IntToString(unitId) + (if rs485 then ", RS-485 mode" else "")
  }

  /** A `%s` conversion then `rest`, when `rest` formats. */
  lemma FormatStep(c: char, x: FormatArg, rest: string, args: seq<FormatArg>, after: string)
    requires c == 's' || c == 'd'
    requires ArgText(c, x).Some? && Format(rest, args) == Some(after)
    ensures Format(['%', c] + rest, [x] + args) == Some(ArgText(c, x).value + after)
  {
    FormatConversion(c, rest, [x] + args);
    assert ([x] + args)[1..] == args;
  }

  /** Plain text then `rest`, when `rest` formats. */
  lemma PlainStep(p: string, rest: string, args: seq<FormatArg>, after: string)
    requires '%' !in p && Format(rest, args) == Some(after)
    ensures Format(p + rest, args) == Some(p + after)
  {
    FormatPlainPrefix(p, rest, args);
  }

  /** A final `%s` or `%d` conversion writes the text of its argument. */
  lemma FormatLast(c: char, x: FormatArg)
    requires c == 's' || c == 'd'
    ensures Format(['%', c], [x]) == ArgText(c, x)
  {
    FormatConversion(c, "", [x]);
    assert ['%', c] + "" == ['%', c];
    if ArgText(c, x).Some? {
      assert ArgText(c, x).value + "" == ArgText(c, x).value;
    }
  }

  /** Text, a conversion, text, a conversion and text, formatted with
      two arguments. */
  lemma FormatTwo(p1: string, c1: char, p2: string, c2: char, tail: string, x1: FormatArg, x2: FormatArg)
    requires '%' !in p1 && '%' !in p2 && '%' !in tail
    requires (c1 == 's' || c1 == 'd') && (c2 == 's' || c2 == 'd')
    requires ArgText(c1, x1).Some? && ArgText(c2, x2).Some?
    ensures Format(p1 + (['%', c1] + (p2 + (['%', c2] + tail))), [x1, x2])
      == Some(p1 + (ArgText(c1, x1).value + (p2 + (ArgText(c2, x2).value + tail))))
  {
    assert [x2] + [] == [x2] && [x1] + [x2] == [x1, x2];
    var t1, t2 := ArgText(c1, x1).value, ArgText(c2, x2).value;
    var s2 := p2 + (['%', c2] + tail);
    assert Format(s2, [x2]) == Some(p2 + (t2 + tail)) by {
      FormatStep(c2, x2, tail, [], tail);
      PlainStep(p2, ['%', c2] + tail, [x2], t2 + tail);
    }
    assert Format(['%', c1] + s2, [x1, x2]) == Some(t1 + (p2 + (t2 + tail))) by {
      FormatStep(c1, x1, s2, [x2], p2 + (t2 + tail));
    }
    PlainStep(p1, ['%', c1] + s2, [x1, x2], t1 + (p2 + (t2 + tail)));
  }

  /** The same with three conversions and three arguments. */
  lemma FormatThree(p1: string, c1: char, p2: string, c2: char, p3: string, c3: char, tail: string,
                    x1: FormatArg, x2: FormatArg, x3: FormatArg)
    requires '%' !in p1 && '%' !in p2 && '%' !in p3 && '%' !in tail
    requires (c1 == 's' || c1 == 'd') && (c2 == 's' || c2 == 'd') && (c3 == 's' || c3 == 'd')
    requires ArgText(c1, x1).Some? && ArgText(c2, x2).Some? && ArgText(c3, x3).Some?
    ensures Format(p1 + (['%', c1] + (p2 + (['%', c2] + (p3 + (['%', c3] + tail))))), [x1, x2, x3])
      == Some(p1 + (ArgText(c1, x1).value + (p2 + (ArgText(c2, x2).value + (p3 + (ArgText(c3, x3).value + tail))))))
  {
    var args := [x1, x2, x3];
    assert [x1] + [x2, x3] == args;
    var t1 := ArgText(c1, x1).value;
    var s2 := p2 + (['%', c2] + (p3 + (['%', c3] + tail)));
    var r2 := p2 + (ArgText(c2, x2).value + (p3 + (ArgText(c3, x3).value + tail)));
    assert Format(s2, [x2, x3]) == Some(r2) by {
      FormatTwo(p2, c2, p3, c3, tail, x2, x3);
    }
    assert Format(['%', c1] + s2, args) == Some(t1 + r2) by {
      FormatStep(c1, x1, s2, [x2, x3], r2);
    }
    PlainStep(p1, ['%', c1] + s2, args, t1 + r2);
  }

  /** The TCP announcement is what `outputEndpointInfo` formats. */
  lemma TcpInfoFormatted(hostname: string, port: int, unitId: int)
    ensures Format("Hostname: %s:%d, Unit ID: %d", [Str(hostname), Dec(port), Dec(unitId)])
      == Some("Hostname: " + hostname + ":" + IntToString(port) + ", Unit ID: " + IntToString(unitId))
  {
    var p, u := IntToString(port), IntToString(unitId);
    assert "Hostname: %s:%d, Unit ID: %d" == "Hostname: " + (['%', 's'] + (":" + (['%', 'd'] + (", Unit ID: " + (['%', 'd'] + ""))))) by {
      HostFormatSplit();
    }
    FormatThree("Hostname: ", 's', ":", 'd', ", Unit ID: ", 'd', "", Str(hostname), Dec(port), Dec(unitId));
    Regroup("Hostname: ", hostname, ":", p, ", Unit ID: ", u);
  }

  /** Right-nested concatenation read left to right. */
  lemma Regroup(a: string, b: string, c: string, d: string, e: string, f: string)
    ensures a + (b + (c + (d + (e + (f + ""))))) == a + b + c + d + e + f
    ensures a + (b + (c + (d + e))) == a + b + c + d + e
  {
    assert f + "" == f;
  }

  lemma HostFormatSplit()
    ensures "Hostname: %s:%d, Unit ID: %d" == "Hostname: " + (['%', 's'] + (":" + (['%', 'd'] + (", Unit ID: " + (['%', 'd'] + "")))))
  {
  }

  lemma SerialFormatSplit(rs485: bool)
    ensures var tail := if rs485 then ", RS-485 mode" else "";
      (if rs485 then "Serial Port: %s, Unit ID: %d, RS-485 mode" else "Serial Port: %s, Unit ID: %d")
        == "Serial Port: " + (['%', 's'] + (", Unit ID: " + (['%', 'd'] + tail)))
  {
  }

  /** The announced endpoint is what `outputEndpointInfo` formats, for
      each of its three format strings. */
  lemma EndpointInfoFormatted(endpoint: EndpointParser.Endpoint, unitId: int, rs485: bool)
    ensures endpoint.Tcp? ==>
      Format("Hostname: %s:%d, Unit ID: %d", [Str(endpoint.hostname), Dec(endpoint.port), Dec(unitId)])
        == Some(EndpointInfo(endpoint, unitId, rs485))
    ensures endpoint.Rtu? && rs485 ==>
      Format("Serial Port: %s, Unit ID: %d, RS-485 mode", [Str(endpoint.serialPort), Dec(unitId)])
        == Some(EndpointInfo(endpoint, unitId, rs485))
    ensures endpoint.Rtu? && !rs485 ==>
      Format("Serial Port: %s, Unit ID: %d", [Str(endpoint.serialPort), Dec(unitId)])
        == Some(EndpointInfo(endpoint, unitId, rs485))
  {
    match endpoint
    case Tcp(hostname, port) =>
      TcpInfoFormatted(hostname, port, unitId);
    case Rtu(serialPort) =>
      var tail := if rs485 then ", RS-485 mode" else "";
      var u := IntToString(unitId);
      FormatTwo("Serial Port: ", 's', ", Unit ID: ", 'd', tail, Str(serialPort), Dec(unitId));
      SerialFormatSplit(rs485);
      Regroup("Serial Port: ", serialPort, ", Unit ID: ", u, tail, "");
  }

  /** The `IllegalArgumentException` thrown with `message`; `printed` is
      the text `printStackTrace` writes for it. */
  function Thrown(message: string, printed: string -> string): Failure {
    Failure(Some(message), printed(message))
  }

  // ---------------------------------------------------------------------
  // executeWithClient
  // ---------------------------------------------------------------------

  /** What happens between `connect` and `disconnect`: a failed connect is
      reported and the action skipped; otherwise the action's steps, then
      its failure if it threw. */
  function Connected(connectFailure: Option<Failure>, action: seq<Step>, actionFailure: Option<Failure>, verbose: bool): seq<Step> {
    if connectFailure.Some? then [ReportError(ErrorText(connectFailure.value, verbose))]
    else action + (if actionFailure.Some? then [ReportError(ErrorText(actionFailure.value, verbose))] else [])
  }

  /** The steps of `executeWithClient` after `EndpointParser.parse` gave
      `parsed`: a parse or creation failure is reported and ends the
      command; otherwise the endpoint is announced, and connect and
      disconnect bracket the rest. */
  function Lifecycle(parsed: Result<EndpointParser.Endpoint, EndpointParser.EndpointError>, options: ClientOptions,
                     verbose: bool, printed: string -> string, connectFailure: Option<Failure>,
                     action: seq<Step>, actionFailure: Option<Failure>): seq<Step>
  {
    if parsed.Err? then [ReportError(ErrorText(Thrown(parsed.error.Message(), printed), verbose))]
    else
      var client := CreateClient(parsed.value, options.serial, options.timeoutMs);
      if client.Err? then [ReportError(ErrorText(Thrown(client.error, printed), verbose))]
      else
        Bracketed(EndpointInfo(parsed.value, options.unitId, options.serial.rs485),
                  Connected(connectFailure, action, actionFailure, verbose))
  }

  /** The endpoint announcement, then `connect`, `middle` and `disconnect`. */
  function Bracketed(info: string, middle: seq<Step>): seq<Step> {
    [Info(info), Connect] + middle + [Disconnect]
  }

  /** The steps of `executeWithClient`. */
  function ExecuteTrace(options: ClientOptions, verbose: bool, uriCreate: string -> EndpointParser.UriOutcome,
                        printed: string -> string, connectFailure: Option<Failure>,
                        action: seq<Step>, actionFailure: Option<Failure>): seq<Step>
  {
    Lifecycle(EndpointParser.Parse(options.endpoint, options.port, uriCreate), options, verbose, printed,
              connectFailure, action, actionFailure)
  }

  /** `executeWithClient`: parse the endpoint, then run the lifecycle. */
  method ExecuteWithClient(options: ClientOptions, verbose: bool, uriCreate: string -> EndpointParser.UriOutcome,
                           printed: string -> string, connectFailure: Option<Failure>,
                           action: seq<Step>, actionFailure: Option<Failure>)
    returns (trace: seq<Step>)
    ensures trace == ExecuteTrace(options, verbose, uriCreate, printed, connectFailure, action, actionFailure)
  {
    var resolved := EndpointParser.Parse(options.endpoint, options.port, uriCreate);
    trace := RunLifecycle(resolved, options, verbose, printed, connectFailure, action, actionFailure);
  }

  /** The body of `executeWithClient` after the parse, one statement per
      step of the source. A `ModbusExecutionException` from `disconnect`
      is swallowed, so disconnecting adds no report. */
  method RunLifecycle(resolved: Result<EndpointParser.Endpoint, EndpointParser.EndpointError>, options: ClientOptions,
                      verbose: bool, printed: string -> string, connectFailure: Option<Failure>,
                      action: seq<Step>, actionFailure: Option<Failure>)
    returns (trace: seq<Step>)
    ensures trace == Lifecycle(resolved, options, verbose, printed, connectFailure, action, actionFailure)
  {
    if resolved.Err? {
      return [ReportError(ErrorText(Thrown(resolved.error.Message(), printed), verbose))];
    }
    var endpoint := resolved.value;
    var client := CreateClient(endpoint, options.serial, options.timeoutMs);
    if client.Err? {
      return [ReportError(ErrorText(Thrown(client.error, printed), verbose))];
    }
    trace := [Info(EndpointInfo(endpoint, options.unitId, options.serial.rs485)), Connect];
    var connected: seq<Step>;
    if connectFailure.Some? {
      connected := [ReportError(ErrorText(connectFailure.value, verbose))];
    } else {
      connected := action;
      if actionFailure.Some? {
        connected := connected + [ReportError(ErrorText(actionFailure.value, verbose))];
      }
    }
    trace := trace + connected + [Disconnect];
    assert trace == Bracketed(EndpointInfo(endpoint, options.unitId, options.serial.rs485), connected);
  }

  /** The action never connects or disconnects by itself. */
  predicate KeepsConnection(action: seq<Step>) {
    forall i :: 0 <= i < |action| ==> action[i] != Connect && action[i] != Disconnect
  }

  /** An endpoint that does not parse, or a client that cannot be created,
      is reported as the only step: nothing is connected. */
  lemma SetupFailureNeverConnects(parsed: Result<EndpointParser.Endpoint, EndpointParser.EndpointError>, options: ClientOptions,
                                  verbose: bool, printed: string -> string, connectFailure: Option<Failure>,
                                  action: seq<Step>, actionFailure: Option<Failure>)
    requires KeepsConnection(action)
    ensures var trace := Lifecycle(parsed, options, verbose, printed, connectFailure, action, actionFailure);
      (Connect in trace <==> parsed.Ok? && CreateClient(parsed.value, options.serial, options.timeoutMs).Ok?)
      && (Connect !in trace ==> |trace| == 1 && trace[0].ReportError?)
  {
    var trace := Lifecycle(parsed, options, verbose, printed, connectFailure, action, actionFailure);
    if parsed.Ok? && CreateClient(parsed.value, options.serial, options.timeoutMs).Ok? {
      assert trace[1] == Connect;
    }
  }

  /** Between the one `connect` and the one `disconnect` lie exactly the
      steps in `middle`. */
  lemma BracketedShape(info: string, middle: seq<Step>)
    requires KeepsConnection(middle)
    ensures var trace := Bracketed(info, middle);
      |trace| == |middle| + 3 && trace[0] == Info(info) && trace[1] == Connect && trace[|trace| - 1] == Disconnect
      && trace[2..|trace| - 1] == middle
      && (forall i :: 0 <= i < |trace| && trace[i] == Connect ==> i == 1)
      && (forall i :: 0 <= i < |trace| && trace[i] == Disconnect ==> i == |trace| - 1)
  {
    var trace := Bracketed(info, middle);
    forall i | 0 <= i < |trace|
      ensures (trace[i] == Connect ==> i == 1) && (trace[i] == Disconnect ==> i == |trace| - 1)
    {
      if 2 <= i < |trace| - 1 {
        assert trace[i] == middle[i - 2];
      }
    }
    assert trace[2..|trace| - 1] == middle;
  }

  /** Without the announcement, the bracketed steps are connect, `middle`
      and disconnect. */
  lemma BracketedTail(info: string, middle: seq<Step>)
    ensures Bracketed(info, middle)[1..] == [Connect] + middle + [Disconnect]
  {
    assert Bracketed(info, middle) == [Info(info)] + ([Connect] + middle + [Disconnect]);
  }

  /** Once connect is attempted, it happens exactly once and the last step
      is the one disconnect, whether connect or the action failed. */
  lemma DisconnectAfterConnect(parsed: Result<EndpointParser.Endpoint, EndpointParser.EndpointError>, options: ClientOptions,
                               verbose: bool, printed: string -> string, connectFailure: Option<Failure>,
                               action: seq<Step>, actionFailure: Option<Failure>)
    requires KeepsConnection(action)
    ensures var trace := Lifecycle(parsed, options, verbose, printed, connectFailure, action, actionFailure);
      Connect in trace ==>
        |trace| >= 3 && trace[0].Info? && trace[1] == Connect && trace[|trace| - 1] == Disconnect
        && (forall i :: 0 <= i < |trace| && trace[i] == Connect ==> i == 1)
        && (forall i :: 0 <= i < |trace| && trace[i] == Disconnect ==> i == |trace| - 1)
  {
    if parsed.Ok? && CreateClient(parsed.value, options.serial, options.timeoutMs).Ok? {
      var middle := Connected(connectFailure, action, actionFailure, verbose);
      assert KeepsConnection(middle);
      BracketedShape(EndpointInfo(parsed.value, options.unitId, options.serial.rs485), middle);
    }
  }

  /** Once the client is created, the lifecycle is the announcement and
      the connected steps bracketed by connect and disconnect. */
  lemma LifecycleStarted(parsed: Result<EndpointParser.Endpoint, EndpointParser.EndpointError>, options: ClientOptions,
                         verbose: bool, printed: string -> string, connectFailure: Option<Failure>,
                         action: seq<Step>, actionFailure: Option<Failure>)
    requires parsed.Ok? && CreateClient(parsed.value, options.serial, options.timeoutMs).Ok?
    ensures Lifecycle(parsed, options, verbose, printed, connectFailure, action, actionFailure)
         == Bracketed(EndpointInfo(parsed.value, options.unitId, options.serial.rs485),
                      Connected(connectFailure, action, actionFailure, verbose))
  {
  }

  /** A failing connect is reported between connect and disconnect, and
      the action does not run. */
  lemma ConnectFailureReported(parsed: Result<EndpointParser.Endpoint, EndpointParser.EndpointError>, options: ClientOptions,
                               verbose: bool, printed: string -> string, failure: Failure,
                               action: seq<Step>, actionFailure: Option<Failure>)
    requires parsed.Ok? && CreateClient(parsed.value, options.serial, options.timeoutMs).Ok?
    ensures Lifecycle(parsed, options, verbose, printed, Some(failure), action, actionFailure)[1..]
         == [Connect, ReportError(ErrorText(failure, verbose)), Disconnect]
  {
    var info := EndpointInfo(parsed.value, options.unitId, options.serial.rs485);
    var middle := [ReportError(ErrorText(failure, verbose))];
    assert Lifecycle(parsed, options, verbose, printed, Some(failure), action, actionFailure) == Bracketed(info, middle) by {
      LifecycleStarted(parsed, options, verbose, printed, Some(failure), action, actionFailure);
    }
    BracketedTail(info, middle);
  }

  /** A failing action is reported after its own steps and before the
      disconnect. */
  lemma ActionFailureReported(parsed: Result<EndpointParser.Endpoint, EndpointParser.EndpointError>, options: ClientOptions,
                              verbose: bool, printed: string -> string, action: seq<Step>, failure: Failure)
    requires parsed.Ok? && CreateClient(parsed.value, options.serial, options.timeoutMs).Ok?
    ensures Lifecycle(parsed, options, verbose, printed, None, action, Some(failure))[1..]
         == [Connect] + action + [ReportError(ErrorText(failure, verbose)), Disconnect]
  {
    var info := EndpointInfo(parsed.value, options.unitId, options.serial.rs485);
    var middle := action + [ReportError(ErrorText(failure, verbose))];
    assert Lifecycle(parsed, options, verbose, printed, None, action, Some(failure)) == Bracketed(info, middle) by {
      LifecycleStarted(parsed, options, verbose, printed, None, action, Some(failure));
    }
    BracketedTail(info, middle);
  }

  // ---------------------------------------------------------------------
  // runWithClient and runWithClientPolling
  // ---------------------------------------------------------------------

  /** `runWithClient`: one run of the command, its exception handled by
      `executeWithClient`. */
  method RunWithClient(options: ClientOptions, verbose: bool, uriCreate: string -> EndpointParser.UriOutcome,
                       printed: string -> string, connectFailure: Option<Failure>, runFailure: Option<Failure>)
    returns (trace: seq<Step>)
    ensures trace == ExecuteTrace(options, verbose, uriCreate, printed, connectFailure, [Run], runFailure)
  {
    trace := ExecuteWithClient(options, verbose, uriCreate, printed, connectFailure, [Run], runFailure);
  }

  /** What one run of the command did: its exception, if any, and the
      elapsed time in whole milliseconds, as `Duration.toMillis` gives it. */
  datatype RunOutcome = RunOutcome(failure: Option<Failure>, elapsedMs: int)

  /** `Math.max(0, intervalMs - elapsed)`: never negative, and the interval
      less the elapsed time while the run was shorter than the interval. */
  function SleepMs(intervalMs: int, elapsedMs: int): (ms: int)
    ensures ms >= 0 && ms >= intervalMs - elapsedMs
    ensures ms == 0 || ms == intervalMs - elapsedMs
  {
    if intervalMs - elapsedMs > 0 then intervalMs - elapsedMs else 0
  }

  /** The number of iterations: none for a negative count, `count` for a
      positive one, and for 0 as many as happen before the loop is
      interrupted, which is when `runs` ends. */
  function IterationCount(count: int, runs: seq<RunOutcome>): nat {
    if count < 0 then 0 else if count == 0 then |runs| else count
  }

  /** Iteration `n`: set the tag, run, report a failure, and sleep unless
      this is the last iteration. */
  function IterationSteps(n: int, run: RunOutcome, sleeps: bool, intervalMs: int, verbose: bool): seq<Step> {
    [SetIteration(n), Run]
    + (if run.failure.Some? then [ReportError(ErrorText(run.failure.value, verbose))] else [])
    + (if sleeps then [Sleep(SleepMs(intervalMs, run.elapsedMs))] else [])
  }

  /** The steps of the first `k` iterations. */
  function PollSteps(count: int, intervalMs: int, runs: seq<RunOutcome>, verbose: bool, k: nat): seq<Step>
    requires k <= |runs|
    decreases k
  {
    if k == 0 then []
    else
      PollSteps(count, intervalMs, runs, verbose, k - 1)
      + IterationSteps(k, runs[k - 1], count == 0 || k < count, intervalMs, verbose)
  }

  /** The `while` loop of `runWithClientPolling`. With `count == 0` the
      loop only ends when it is interrupted, which here is when `runs` is
      exhausted. */
  method PollLoop(count: int, intervalMs: int, runs: seq<RunOutcome>, verbose: bool) returns (trace: seq<Step>)
    requires count > 0 ==> count <= |runs|
    ensures trace == PollSteps(count, intervalMs, runs, verbose, IterationCount(count, runs))
  {
    var iteration := 0;
    trace := [];
    while (count == 0 || iteration < count) && iteration < |runs|
      invariant 0 <= iteration <= IterationCount(count, runs)
      invariant trace == PollSteps(count, intervalMs, runs, verbose, iteration)
    {
      ghost var before := trace;
      iteration := iteration + 1;
      trace := trace + [SetIteration(iteration)];
      var run := runs[iteration - 1];
      trace := trace + [Run];
      if run.failure.Some? {
        trace := trace + [ReportError(ErrorText(run.failure.value, verbose))];
      }
      if count == 0 || iteration < count {
        trace := trace + [Sleep(SleepMs(intervalMs, run.elapsedMs))];
      }
      assert trace == before + IterationSteps(iteration, run, count == 0 || iteration < count, intervalMs, verbose);
    }
  }

  /** `runWithClientPolling`: the polling loop is the action of
      `executeWithClient`. A failing run is reported inside the loop. With
      `count == 0` the loop is only left through the exception
      `Thread.sleep` throws when the thread is interrupted (`interrupted`);
      it escapes the loop, so `executeWithClient` reports it as the
      action's failure before disconnecting. */
  method RunWithClientPolling(options: ClientOptions, verbose: bool, uriCreate: string -> EndpointParser.UriOutcome,
                              printed: string -> string, connectFailure: Option<Failure>,
                              count: int, intervalMs: int, runs: seq<RunOutcome>, interrupted: Failure)
    returns (trace: seq<Step>)
    requires count > 0 ==> count <= |runs|
    ensures trace == ExecuteTrace(options, verbose, uriCreate, printed, connectFailure,
                                  PollSteps(count, intervalMs, runs, verbose, IterationCount(count, runs)),
                                  if count == 0 then Some(interrupted) else None)
  {
    var steps := PollLoop(count, intervalMs, runs, verbose);
    var escaped: Option<Failure> := None;
    if count == 0 {
      escaped := Some(interrupted);
    }
    trace := ExecuteWithClient(options, verbose, uriCreate, printed, connectFailure, steps, escaped);
  }

  /** An endless poll that got connected runs all its iterations, then
      reports the interruption, then disconnects. */
  lemma EndlessPollingInterrupted(options: ClientOptions, verbose: bool, uriCreate: string -> EndpointParser.UriOutcome,
                                  printed: string -> string, intervalMs: int, runs: seq<RunOutcome>, interrupted: Failure)
    requires EndpointParser.Parse(options.endpoint, options.port, uriCreate).Ok?
    requires CreateClient(EndpointParser.Parse(options.endpoint, options.port, uriCreate).value, options.serial, options.timeoutMs).Ok?
    ensures ExecuteTrace(options, verbose, uriCreate, printed, None,
                         PollSteps(0, intervalMs, runs, verbose, IterationCount(0, runs)), Some(interrupted))[1..]
         == [Connect] + PollSteps(0, intervalMs, runs, verbose, |runs|) + [ReportError(ErrorText(interrupted, verbose)), Disconnect]
  {
    var parsed := EndpointParser.Parse(options.endpoint, options.port, uriCreate);
    var steps := PollSteps(0, intervalMs, runs, verbose, |runs|);
    ActionFailureReported(parsed, options, verbose, printed, steps, interrupted);
    assert [Connect] + steps + [ReportError(ErrorText(interrupted, verbose)), Disconnect]
        == [Connect] + steps + [ReportError(ErrorText(interrupted, verbose))] + [Disconnect];
  }

  // ---------------------------------------------------------------------
  // The polling schedule
  // ---------------------------------------------------------------------

  /** The iteration tags set, in order. */
  function Tags(steps: seq<Step>): seq<int>
    decreases |steps|
  {
    if |steps| == 0 then []
    else Tags(steps[..|steps| - 1]) + (if steps[|steps| - 1].SetIteration? then [steps[|steps| - 1].iteration] else [])
  }

  /** The number of runs of the command. */
  function RunCount(steps: seq<Step>): nat
    decreases |steps|
  {
    if |steps| == 0 then 0
    else RunCount(steps[..|steps| - 1]) + (if steps[|steps| - 1] == Run then 1 else 0)
  }

  /** The number of sleeps. */
  function SleepCount(steps: seq<Step>): nat
    decreases |steps|
  {
    if |steps| == 0 then 0
    else SleepCount(steps[..|steps| - 1]) + (if steps[|steps| - 1].Sleep? then 1 else 0)
  }

  lemma {:induction false} CountsAppend(a: seq<Step>, b: seq<Step>)
    ensures Tags(a + b) == Tags(a) + Tags(b)
    ensures RunCount(a + b) == RunCount(a) + RunCount(b)
    ensures SleepCount(a + b) == SleepCount(a) + SleepCount(b)
    decreases |b|
  {
    if |b| > 0 {
      var b' := b[..|b| - 1];
      var last := b[|b| - 1];
      assert (a + b)[..|a + b| - 1] == a + b';
      assert (a + b)[|a + b| - 1] == last;
      CountsAppend(a, b');
      assert Tags(a + b) == Tags(a + b') + (if last.SetIteration? then [last.iteration] else []);
      assert Tags(b) == Tags(b') + (if last.SetIteration? then [last.iteration] else []);
      assert RunCount(a + b) == RunCount(a + b') + (if last == Run then 1 else 0);
      assert SleepCount(a + b) == SleepCount(a + b') + (if last.Sleep? then 1 else 0);
    } else {
      assert a + b == a;
    }
  }

  lemma CountsOne(s: Step)
    ensures Tags([s]) == (if s.SetIteration? then [s.iteration] else [])
    ensures RunCount([s]) == (if s == Run then 1 else 0)
    ensures SleepCount([s]) == (if s.Sleep? then 1 else 0)
  {
    assert [s][..0] == [];
  }

  lemma IterationCounts(n: int, run: RunOutcome, sleeps: bool, intervalMs: int, verbose: bool)
    ensures var steps := IterationSteps(n, run, sleeps, intervalMs, verbose);
      Tags(steps) == [n] && RunCount(steps) == 1 && SleepCount(steps) == (if sleeps then 1 else 0)
  {
    var report := if run.failure.Some? then [ReportError(ErrorText(run.failure.value, verbose))] else [];
    var pause := if sleeps then [Sleep(SleepMs(intervalMs, run.elapsedMs))] else [];
    CountsOne(SetIteration(n));
    CountsOne(Run);
    CountsAppend([SetIteration(n)], [Run]);
    if run.failure.Some? { CountsOne(report[0]); } else { assert Tags(report) == []; }
    if sleeps { CountsOne(pause[0]); } else { assert Tags(pause) == []; }
    CountsAppend([SetIteration(n), Run], report);
    CountsAppend([SetIteration(n), Run] + report, pause);
  }

  /** `1, 2, …, k`. */
  function UpTo(k: nat): (r: seq<int>)
    ensures |r| == k && forall i :: 0 <= i < k ==> r[i] == i + 1
  {
    seq(k, i => i + 1)
  }

  /** The first `k` iterations set the tags `1..k` in order and run the
      command `k` times, failures or not; every iteration but the last of a
      positive count sleeps once. */
  lemma {:induction false} PollCounts(count: int, intervalMs: int, runs: seq<RunOutcome>, verbose: bool, k: nat)
    requires k <= |runs|
    ensures Tags(PollSteps(count, intervalMs, runs, verbose, k)) == UpTo(k)
    ensures RunCount(PollSteps(count, intervalMs, runs, verbose, k)) == k
    ensures count > 0 && k <= count ==> SleepCount(PollSteps(count, intervalMs, runs, verbose, k)) == (if k == count then k - 1 else k)
    ensures count == 0 ==> SleepCount(PollSteps(count, intervalMs, runs, verbose, k)) == k
    decreases k
  {
    if k > 0 {
      PollCounts(count, intervalMs, runs, verbose, k - 1);
      var sleeps := count == 0 || k < count;
      var prev, iter := PollSteps(count, intervalMs, runs, verbose, k - 1), IterationSteps(k, runs[k - 1], sleeps, intervalMs, verbose);
      assert PollSteps(count, intervalMs, runs, verbose, k) == prev + iter;
      assert Tags(prev + iter) == Tags(prev) + Tags(iter) && RunCount(prev + iter) == RunCount(prev) + RunCount(iter)
        && SleepCount(prev + iter) == SleepCount(prev) + SleepCount(iter) by {
        CountsAppend(prev, iter);
      }
      assert Tags(iter) == [k] && RunCount(iter) == 1 && SleepCount(iter) == (if sleeps then 1 else 0) by {
        IterationCounts(k, runs[k - 1], sleeps, intervalMs, verbose);
      }
      assert UpTo(k - 1) + [k] == UpTo(k) by {
        UpToSnoc(k);
      }
    }
  }

  lemma UpToSnoc(k: nat)
    requires k > 0
    ensures UpTo(k - 1) + [k] == UpTo(k)
  {
    assert forall i :: 0 <= i < k ==> (UpTo(k - 1) + [k])[i] == UpTo(k)[i];
  }

  /** Every run is immediately preceded by an iteration tag. */
  predicate RunsTagged(steps: seq<Step>) {
    forall i :: 0 <= i < |steps| && steps[i] == Run ==> i > 0 && steps[i - 1].SetIteration?
  }

  /** Every run is immediately preceded by the tag of its iteration. */
  lemma {:induction false} TagBeforeRun(count: int, intervalMs: int, runs: seq<RunOutcome>, verbose: bool, k: nat)
    requires k <= |runs|
    ensures RunsTagged(PollSteps(count, intervalMs, runs, verbose, k))
    decreases k
  {
    if k > 0 {
      TagBeforeRun(count, intervalMs, runs, verbose, k - 1);
      var prev := PollSteps(count, intervalMs, runs, verbose, k - 1);
      var iter := IterationSteps(k, runs[k - 1], count == 0 || k < count, intervalMs, verbose);
      var steps := prev + iter;
      assert steps == PollSteps(count, intervalMs, runs, verbose, k);
      forall i | 0 <= i < |steps| && steps[i] == Run
        ensures i > 0 && steps[i - 1].SetIteration?
      {
        if i >= |prev| {
          var j := i - |prev|;
          assert steps[i] == iter[j];
          assert iter[0] == SetIteration(k) && iter[1] == Run;
          assert forall m :: 2 <= m < |iter| ==> iter[m].ReportError? || iter[m].Sleep?;
          assert j == 1;
          assert steps[i - 1] == iter[0];
        } else {
          assert steps[i] == prev[i];
          assert i > 0 && prev[i - 1].SetIteration?;
          assert steps[i - 1] == prev[i - 1];
        }
      }
    }
  }

  /** A positive count runs exactly `count` iterations, tagged `1..count`,
      with `count - 1` sleeps, none after the last iteration; a negative
      count runs nothing. */
  lemma PollSchedule(count: int, intervalMs: int, runs: seq<RunOutcome>, verbose: bool)
    requires count > 0 ==> count <= |runs|
    ensures var steps := PollSteps(count, intervalMs, runs, verbose, IterationCount(count, runs));
      Tags(steps) == UpTo(IterationCount(count, runs))
      && RunCount(steps) == IterationCount(count, runs)
      && (count < 0 ==> steps == [])
      && (count > 0 ==> SleepCount(steps) == count - 1 && !steps[|steps| - 1].Sleep?)
  {
    var k := IterationCount(count, runs);
    PollCounts(count, intervalMs, runs, verbose, k);
    if count > 0 {
      var last := IterationSteps(k, runs[k - 1], false, intervalMs, verbose);
      assert PollSteps(count, intervalMs, runs, verbose, k) == PollSteps(count, intervalMs, runs, verbose, k - 1) + last;
      assert last[|last| - 1] == Run || last[|last| - 1].ReportError?;
    }
  }

  /** With `count == 0` every iteration, the last one before the
      interruption included, ends with its sleep: the count never stops
      the loop. */
  lemma EndlessPolling(intervalMs: int, runs: seq<RunOutcome>, verbose: bool)
    requires |runs| > 0
    ensures var steps := PollSteps(0, intervalMs, runs, verbose, |runs|);
      steps[|steps| - 1] == Sleep(SleepMs(intervalMs, runs[|runs| - 1].elapsedMs))
  {
    var k := |runs|;
    var last := IterationSteps(k, runs[k - 1], true, intervalMs, verbose);
    assert PollSteps(0, intervalMs, runs, verbose, k) == PollSteps(0, intervalMs, runs, verbose, k - 1) + last;
  }
}
