# modbus-cli core, modelled in Dafny

This project models the logic of the modbus-cli command-line tool that sits
between its command-line layer and the Modbus library it drives, and proves
what that logic promises:

- **Endpoint parsing** (`EndpointParser`): the endpoint string and an
  optional `--port` override become `Tcp(hostname, port)` or
  `Rtu(serialPort)`, or a named error. The scheme prefixes, `host[:port]`
  with bracketed IPv6 hosts, and port resolution are all modelled.
- **Value codec** (`ValueParser`, `RequestValues`, the three write
  commands): coil, register and hex tokens; coils packed LSB first into the
  bytes of a Write Multiple Coils request (function code 15, section 6.11
  of the MODBUS Application Protocol Specification V1.1b3); registers
  packed big-endian (section 4.2 of that specification, function codes 16
  and 23).
- **Scan loop** (`ScanCommand`): the sliding window over `[start, end)`,
  with the device read as an oracle parameter.
- **Render pipeline** (`OutputCommon`, `JsonFormatter`, `HumanFormatter`,
  `DefaultOutputContext`): per-address aggregation of overlapping scan
  windows, LSB-first coil unpacking, JSON field order and escaping, the
  human table layouts as rows of cells, quiet mode, and the routing of
  output to stdout and stderr. Output is modelled as the sequence of lines
  each stream receives.
- **Validators and initialisers** (`SerialPortOptions`, `ClientCommand`,
  `ServerCommand`, `TestProcessImage`): serial options, the polling
  schedule and the connect/disconnect lifecycle, the server's default
  process image and per-unit image selection, and the test image's 16-bit
  register encoding.

Java semantics that matter are written out in `JavaText`:

- `String.trim` and `isBlank`;
- `String.split(",")`, which drops trailing empty strings;
- `Integer.parseInt`, with its sign and 32-bit range;
- `/` truncating toward zero (`JavaDiv`).

Bytes are `bv8`, the unsigned view `b & 0xFF` of a Java `byte`. Objects
whose fields the source updates are classes: the two formatters, the
output context and its builders, the scan options, the server's services
and the test process image. Loops in the source are methods with loop
invariants, proved against the functions that specify them.

Where the specification and the code differ, the code is followed, with
one exception. The human scan table's source computes line starts with
truncating division. The model uses floor division instead. The two agree
on every non-negative address. On a negative address the source's version
never terminates, as shown under "## Findings".

## Model

| member | source | states |
|---|---|---|
| ValueParser.ParseCoilValue | src/main/java/com/kevinherron/modbus/cli/util/ValueParser.java:17-26 | `Ok(true)` exactly when the lower-cased, trimmed token is `true`, `1` or `on`; `Ok(false)` exactly for `false`, `0` or `off`; every other token fails with the "Invalid coil value" message quoting the original input |
| ValueParser.ParseRegisterValue | src/main/java/com/kevinherron/modbus/cli/util/ValueParser.java:35-50 | a success is a 32-bit signed int, never clamped to 16 bits; a failure carries the "Invalid value" message quoting the original input |
| ValueParser.ParseHexValue | src/main/java/com/kevinherron/modbus/cli/util/ValueParser.java:59-71 | a success is a 32-bit signed int; a failure carries the "Invalid hex value" message quoting the original input |
| ValueParser.CoilKeywordAnyCaseAnyPadding | src/test/java/com/kevinherron/modbus/cli/util/ValueParserTest.java:14-42 | a coil keyword in any letter case, padded with any whitespace or control characters, parses to that keyword's value |
| ValueParser.CoilRejectsNonKeyword | src/main/java/com/kevinherron/modbus/cli/util/ValueParser.java:22-24 | an already-trimmed token that is no keyword in any case is rejected with the coil message |
| ValueParser.CoilPaddedZero | src/test/java/com/kevinherron/modbus/cli/util/ValueParserTest.java:41 | `" 0 "` is false |
| ValueParser.CoilMixedCaseOn | src/test/java/com/kevinherron/modbus/cli/util/ValueParserTest.java:22 | `"On"` is true |
| ValueParser.CoilRejectsYes | src/test/java/com/kevinherron/modbus/cli/util/ValueParserTest.java:45-49 | `"yes"` is rejected with the coil message |
| ValueParser.CoilRejectsEmpty | src/test/java/com/kevinherron/modbus/cli/util/ValueParserTest.java:45-49 | `""` is rejected with the coil message |
| ValueParser.RegisterOnTrimmed | src/main/java/com/kevinherron/modbus/cli/util/ValueParser.java:35-48 | whether a register value parses, and the value it gives, depend only on the trimmed token; the raw input appears only in the error message |
| ValueParser.HexOnTrimmed | src/main/java/com/kevinherron/modbus/cli/util/ValueParser.java:59-70 | whether a hex value parses, and the value it gives, depend only on the trimmed token |
| ValueParser.RegisterPaddingIgnored | src/main/java/com/kevinherron/modbus/cli/util/ValueParser.java:35-48 | whitespace or control characters before and after a token change neither whether it parses as a register value nor the value |
| ValueParser.HexPaddingIgnored | src/main/java/com/kevinherron/modbus/cli/util/ValueParser.java:59-70 | whitespace or control characters before and after a token change neither whether it parses as a hex value nor the value |
| ValueParser.PrefixedRegisterIsHex | src/main/java/com/kevinherron/modbus/cli/util/ValueParser.java:37-40 | on a token with a case-insensitive `0x` prefix, the register reader succeeds exactly when the hex reader does, with the same value |
| ValueParser.RegisterHexForm | src/test/java/com/kevinherron/modbus/cli/util/ValueParserTest.java:60-69 | `0x` or `0X` followed by the zero-padded upper-case hex digits of any `n` up to 2^31-1 parses to `n` (so `0x04D2` gives 1234) |
| ValueParser.RegisterDecimalRoundTrip | src/test/java/com/kevinherron/modbus/cli/util/ValueParserTest.java:118-128 | every 32-bit int, negative ones included, parses back from its decimal text unchanged (`-1` gives -1, `-32768` gives -32768) |
| ValueParser.RegisterRejectsBarePrefix | src/test/java/com/kevinherron/modbus/cli/util/ValueParserTest.java:77-83 | `"0x"` is rejected with the register message |
| ValueParser.RegisterRejectsTrailingJunk | src/test/java/com/kevinherron/modbus/cli/util/ValueParserTest.java:77-83 | `"123abc"` is rejected with the register message |
| ValueParser.RegisterRejectsNonHexDigits | src/test/java/com/kevinherron/modbus/cli/util/ValueParserTest.java:77-83 | `"0xGGGG"` is rejected with the register message |
| ValueParser.RegisterRejectsBlank | src/test/java/com/kevinherron/modbus/cli/util/ValueParserTest.java:77-83 | `""` and `"  "` are rejected with the register message |
| ValueParser.RegisterRejectsLetters | src/test/java/com/kevinherron/modbus/cli/util/ValueParserTest.java:77-83 | `"abc"` is rejected with the register message |
| ValueParser.RegisterRejectsLoneX | src/test/java/com/kevinherron/modbus/cli/util/ValueParserTest.java:77-83 | `"x123"` is rejected with the register message |
| ValueParser.HexRejectsBlank | src/test/java/com/kevinherron/modbus/cli/util/ValueParserTest.java:110-116 | `""` and `"  "` are rejected with the hex message |
| ValueParser.HexRejectsBarePrefix | src/test/java/com/kevinherron/modbus/cli/util/ValueParserTest.java:110-116 | `"0x"` is rejected with the hex message |
| ValueParser.HexRejectsNonHexDigits | src/test/java/com/kevinherron/modbus/cli/util/ValueParserTest.java:110-116 | `"GGGG"` and `"0xGGGG"` are rejected with the hex message |
| ValueParser.HexRejectsLetters | src/test/java/com/kevinherron/modbus/cli/util/ValueParserTest.java:110-116 | `"xyz"` is rejected with the hex message |
| ValueParser.HexPrefixOptional | src/main/java/com/kevinherron/modbus/cli/util/ValueParser.java:59-71 | for a trimmed token, adding `0x` or `0X` in front changes neither success nor value |
| ValueParser.HexAcceptsSign | src/main/java/com/kevinherron/modbus/cli/util/ValueParser.java:66 | a sign is accepted in a hex token: `-FF` gives -255 |
| ValueParser.HexFullWord | src/test/java/com/kevinherron/modbus/cli/util/ValueParserTest.java:130-138 | `FFFF` gives 65535 |
| ValueParser.HexFullWordPrefixed | src/test/java/com/kevinherron/modbus/cli/util/ValueParserTest.java:85-93 | `0xFFFF` gives 65535 |
| EndpointParser.MakeParsedTcp | src/main/java/com/kevinherron/modbus/cli/util/EndpointParser.java:271-278 | the record is built exactly when the hostname is not blank, and holds the given hostname and port; otherwise the missing-hostname error |
| EndpointParser.ResolveTcp | src/main/java/com/kevinherron/modbus/cli/util/EndpointParser.java:87-102 | fails exactly when an explicit port and an override disagree, with both in the mismatch error; otherwise the explicit port, else the override, else 502, with the hostname kept |
| EndpointParser.ResolveRtu | src/main/java/com/kevinherron/modbus/cli/util/EndpointParser.java:117-122 | succeeds exactly when no override is given, with the serial port kept; otherwise the "--port is only valid for TCP" error |
| EndpointParser.ParseTcpUri | src/main/java/com/kevinherron/modbus/cli/util/EndpointParser.java:132-157 | a URI syntax error is wrapped; an absent or blank host gives the missing-hostname error; a non-blank host with a path other than absent, empty or `/` gives the path error; a non-blank unbracketed host with such a path succeeds with exactly that host and the URI's port when it is not negative (bracketed hosts: `TcpUriStripsBrackets`) |
| EndpointParser.ParseRtuUri | src/main/java/com/kevinherron/modbus/cli/util/EndpointParser.java:167-173 | the text after `rtu://`, verbatim, exactly when it is not blank; otherwise the missing-serial-port error |
| EndpointParser.ParseRtuScheme | src/main/java/com/kevinherron/modbus/cli/util/EndpointParser.java:204-209 | the text after `rtu:`, verbatim, exactly when it is not blank; otherwise the missing-serial-port error |
| EndpointParser.ParseTcpScheme | src/main/java/com/kevinherron/modbus/cli/util/EndpointParser.java:184-193 | a blank remainder gives the missing-hostname error, one starting with `/` the leading-slash error; a success has a non-blank hostname |
| EndpointParser.ParseAfterBracket | src/main/java/com/kevinherron/modbus/cli/util/EndpointParser.java:231-247 | after `]` the parse succeeds exactly when nothing follows, or `:` and a non-empty all-digit port that fits an int; the bracketed host is kept |
| EndpointParser.ParseHostPort | src/main/java/com/kevinherron/modbus/cli/util/EndpointParser.java:219-264 | a successful parse never yields a blank hostname |
| EndpointParser.SchemeOf | src/main/java/com/kevinherron/modbus/cli/util/EndpointParser.java:57-74 | the prefixes are tested in the order `tcp://`, `rtu://`, `tcp:`, `rtu:`, then `://` anywhere, and the first that matches decides |
| EndpointParser.ParseTrimmed | src/main/java/com/kevinherron/modbus/cli/util/EndpointParser.java:54-74 | never the blank-endpoint error; a TCP result has a non-blank hostname, an RTU result a non-blank serial port and no override |
| EndpointParser.Parse | src/main/java/com/kevinherron/modbus/cli/util/EndpointParser.java:49-75 | the blank-endpoint error exactly for a null or blank input; a TCP result has a non-blank hostname, an RTU result a non-blank serial port and no override |
| EndpointParser.HostPortShape | src/main/java/com/kevinherron/modbus/cli/util/EndpointParser.java:219-264 | the hostname is a slice of the input: the text between `[` and the first `]`, or the whole unbracketed input when no port is read, or the part before the only colon when digits alone follow it |
| EndpointParser.BracketedErrors | src/main/java/com/kevinherron/modbus/cli/util/EndpointParser.java:220-229 | a bracketed endpoint without `]` is the invalid-IPv6 error, and a blank host between the brackets the missing-hostname error |
| EndpointParser.TcpUriStripsBrackets | src/main/java/com/kevinherron/modbus/cli/util/EndpointParser.java:144-156 | a host reported as `[h]` becomes `h`; the reported port (when not negative) and an empty or root path are kept |
| EndpointParser.PlainHostPortRoundTrip | src/main/java/com/kevinherron/modbus/cli/util/EndpointParser.java:250-263 | an unbracketed host without colons, with or without a written port, parses back to itself and that port |
| EndpointParser.BracketedHostPortRoundTrip | src/main/java/com/kevinherron/modbus/cli/util/EndpointParser.java:220-248 | a host with a colon, written in brackets with or without a port, parses back without its brackets |
| EndpointParser.HostPortRoundTrip | src/main/java/com/kevinherron/modbus/cli/util/EndpointParser.java:219-264 | writing a non-blank host (no `]`, not starting with `[`) and an optional port as `host[:port]`, bracketing IPv6-style hosts, and parsing gives both back |
| EndpointParser.ParseTrimsFirst | src/main/java/com/kevinherron/modbus/cli/util/EndpointParser.java:50-55 | padding a trimmed endpoint with characters up to U+0020 on either side changes nothing |
| EndpointParser.ParseBareHost | src/main/java/com/kevinherron/modbus/cli/util/EndpointParser.java:69-74 | an endpoint with no `tcp:`/`rtu:` prefix in any case and no `://` is a TCP hostname taken whole, never split at a colon, with the override port or 502 |
| EndpointParser.ParseUnsupportedScheme | src/main/java/com/kevinherron/modbus/cli/util/EndpointParser.java:69-72 | any other scheme written with `://` is the unsupported-scheme error naming the trimmed endpoint |
| EndpointParser.ParseRtu | src/main/java/com/kevinherron/modbus/cli/util/EndpointParser.java:60-67 | an `rtu:` or `rtu://` endpoint, prefix in any case, names the rest verbatim as its serial port; a blank one is refused first, then any override |
| EndpointParser.ParseTcpTextEndpoint | src/main/java/com/kevinherron/modbus/cli/util/EndpointParser.java:63-64 | `tcp:` in any case followed by `host[:port]` gives that host, and the written port must agree with the override (else the mismatch error), defaulting to the override or 502 |
| ScanCommand.ScanOptions.ApplyDefaults | src/main/java/com/kevinherron/modbus/cli/client/ScanCommand.java:81-86 | an absent size becomes 10 and an absent step becomes the size; the other options are unchanged |
| ScanCommand.ScanOptions.Run | src/main/java/com/kevinherron/modbus/cli/client/ScanCommand.java:80-113 | `size` becomes the old size or 10 and `step` the old step or that size, both written back; start, end and partial are unchanged; the result is the outcome of reading, in order, the windows of the old `[start, end)` with the defaulted size and step |
| ScanCommand.Scan | src/main/java/com/kevinherron/modbus/cli/client/ScanCommand.java:94-110 | the `for` loop with its `break` and `continue` issues exactly the reads of `Windows(start, end, size, step, partial)`, in order, and returns their outcome |
| ScanCommand.ScanOutcomeMeaning | src/main/java/com/kevinherron/modbus/cli/client/ScanCommand.java:105-112 | the scan succeeds exactly when every read does, and then holds one result per window, in window order, with the window start and the bytes read; otherwise it fails with the first failing read's error and no results |
| ScanCommand.WindowsInRange | src/main/java/com/kevinherron/modbus/cli/client/ScanCommand.java:94-95 | every read asks for `min(size, end - i)` registers, which lies in `1..size`, and the window lies inside `[start, end)` |
| ScanCommand.WindowsOnGrid | src/main/java/com/kevinherron/modbus/cli/client/ScanCommand.java:94 | window starts are `start + m * step` for some pass `m` |
| ScanCommand.NoWindows | src/main/java/com/kevinherron/modbus/cli/client/ScanCommand.java:94-98 | no read is issued when `start >= end` or `size <= 0` |
| ScanCommand.FullWindowsOnly | src/main/java/com/kevinherron/modbus/cli/client/ScanCommand.java:100-103 | without `--partial` every read asks for exactly `size` registers |
| ScanCommand.StartsIncrease | src/main/java/com/kevinherron/modbus/cli/client/ScanCommand.java:105-109 | window starts strictly increase, so results come out in address order |
| ScanCommand.WindowsTile | src/main/java/com/kevinherron/modbus/cli/client/ScanCommand.java:94-95 | with `step == size` and partial windows read, the windows tile `[start, end)`: the first starts at `start`, each starts where the previous ended, and the last ends at `end` |
| OutputCommon.PairsAt | src/main/java/com/kevinherron/modbus/cli/output/JsonFormatter.java:175-179 | observation `j` of a window is address `address + j` with bytes `2j` and `2j+1`, and a window of `n` bytes gives `n / 2` observations |
| OutputCommon.ReadingsAtMeaning | src/main/java/com/kevinherron/modbus/cli/output/JsonFormatter.java:168-180 | an address has readings exactly when it was observed, and its readings are exactly those of its observations |
| OutputCommon.ReflectsSnoc | src/main/java/com/kevinherron/modbus/cli/output/JsonFormatter.java:178 | one `computeIfAbsent(..).add(..)` keeps the per-address map equal to the readings of the observations so far |
| OutputCommon.Aggregate | src/main/java/com/kevinherron/modbus/cli/output/JsonFormatter.java:168-180 | the map's keys are the observed addresses and each list holds that address's readings in window-then-offset order; the key list holds each key once |
| OutputCommon.AggregateWindow | src/main/java/com/kevinherron/modbus/cli/output/JsonFormatter.java:175-179 | adding one window's byte pairs keeps the map in step with the observations extended by that window |
| OutputCommon.AreAllEqual | src/main/java/com/kevinherron/modbus/cli/output/JsonFormatter.java:248-261 | true exactly when every entry equals the first (so for zero or one entry); false only when some later entry differs from the first |
| OutputCommon.SortAddresses | src/main/java/com/kevinherron/modbus/cli/output/JsonFormatter.java:187-188 | the keys sorted: strictly ascending, same length, same elements |
| OutputCommon.UnpackCoils | src/main/java/com/kevinherron/modbus/cli/output/JsonFormatter.java:143-148 | exactly `quantity` booleans, the i-th being bit `i % 8` of byte `i / 8` |
| OutputCommon.FirstSeen | src/main/java/com/kevinherron/modbus/cli/output/JsonFormatter.java:187 | the observed addresses, each once |
| OutputCommon.Ascending | src/main/java/com/kevinherron/modbus/cli/output/JsonFormatter.java:186-188 | the observed addresses, strictly ascending, each once |
| OutputCommon.AscendingUnique | src/main/java/com/kevinherron/modbus/cli/output/JsonFormatter.java:187-188 | two strictly ascending lists with the same elements are equal, so the sorted key list is determined by the key set |
| OutputCommon.NoObservations | src/main/java/com/kevinherron/modbus/cli/output/JsonFormatter.java:182-184 | no address is observed exactly when every window returned no bytes |
| JsonFormatter.EscapeJsonPerChar | src/main/java/com/kevinherron/modbus/cli/output/JsonFormatter.java:240-246 | the five chained replacements escape each character on its own: backslash first, so the backslashes added later are not doubled |
| JsonFormatter.EscapeConcat | src/main/java/com/kevinherron/modbus/cli/output/JsonFormatter.java:240-246 | escaping distributes over concatenation |
| JsonFormatter.EscapeOne | src/main/java/com/kevinherron/modbus/cli/output/JsonFormatter.java:240-246 | the chained replacements turn a single character into exactly its own escape |
| JsonFormatter.EscapeRoundTrip | src/main/java/com/kevinherron/modbus/cli/output/JsonFormatter.java:240-246 | reading the escaped text back as JSON gives the original string |
| JsonFormatter.EscapeJsonNoBreaks | src/main/java/com/kevinherron/modbus/cli/output/JsonFormatter.java:240-246 | an escaped string holds no raw line feed, carriage return or tab |
| JsonFormatter.ToJsonOneLine | src/main/java/com/kevinherron/modbus/cli/output/JsonFormatter.java:222-238 | `toJson` output holds no raw line feed, carriage return or tab when no key does, so each record is printed as one line |
| JsonFormatter.HeaderFields | src/main/java/com/kevinherron/modbus/cli/output/JsonFormatter.java:122-127 | a record's keys are distinct and start `timestamp`, then `iteration` only when set, then `type`, then the kind's own fields; each header value and each body field is found under its key |
| JsonFormatter.ProtocolKeys | src/main/java/com/kevinherron/modbus/cli/output/JsonFormatter.java:51-61 | protocol record keys in order: header, `direction`, `function_code` only when the code is not -1, `pdu`; all distinct |
| JsonFormatter.ProtocolFields | src/main/java/com/kevinherron/modbus/cli/output/JsonFormatter.java:56-61 | a protocol record's type is `protocol`, its function code present exactly when not -1, its `pdu` the encoded PDU and its direction `sent` or `received` |
| JsonFormatter.MessageFields | src/main/java/com/kevinherron/modbus/cli/output/JsonFormatter.java:96-102 | a message record's keys are the header then `message`; its type is the lower-case output type and its message the text |
| JsonFormatter.DecodeByteList | src/main/java/com/kevinherron/modbus/cli/output/JsonFormatter.java:114-118 | the `data` list of `b & 0xFF` values reads back as exactly the register bytes |
| JsonFormatter.RegisterTableKeys | src/main/java/com/kevinherron/modbus/cli/output/JsonFormatter.java:122-130 | register table keys: header, `start_address`, `quantity`, `data`; all distinct |
| JsonFormatter.RegisterTableFields | src/main/java/com/kevinherron/modbus/cli/output/JsonFormatter.java:114-131 | `quantity` is half the byte count, `start_address` the start and `data` decodes to exactly the register bytes, in order |
| JsonFormatter.CoilTableKeys | src/main/java/com/kevinherron/modbus/cli/output/JsonFormatter.java:150-158 | coil table keys: header, `start_address`, `quantity`, `data`; all distinct |
| JsonFormatter.CoilTableFields | src/main/java/com/kevinherron/modbus/cli/output/JsonFormatter.java:142-158 | `data` holds exactly `quantity` booleans (none for a negative quantity), the i-th being bit `i % 8` of byte `i / 8` |
| JsonFormatter.ScanRecordMeaning | src/main/java/com/kevinherron/modbus/cli/output/JsonFormatter.java:163-215 | a scan record is printed exactly when some window returned bytes; its entries are listed by strictly ascending address, one per observed address, each with all its readings and `identical` true exactly when all equal the first |
| JsonFormatter.BuiltEntries | src/main/java/com/kevinherron/modbus/cli/output/JsonFormatter.java:191-206 | entries built from the aggregated map over the sorted addresses are the record's entries |
| JsonFormatter.BuildEntries | src/main/java/com/kevinherron/modbus/cli/output/JsonFormatter.java:191-206 | one entry per sorted address, in that order, built from that address's list |
| JsonFormatter.JsonFormatter.constructor | src/main/java/com/kevinherron/modbus/cli/output/JsonFormatter.java:28 | a new formatter has no iteration set |
| JsonFormatter.JsonFormatter.SetIteration | src/main/java/com/kevinherron/modbus/cli/output/JsonFormatter.java:31-33 | the iteration tag becomes the given one |
| JsonFormatter.JsonFormatter.FormatProtocol | src/main/java/com/kevinherron/modbus/cli/output/JsonFormatter.java:36-64 | nothing in quiet mode; otherwise one protocol record with the given or current time and the current iteration |
| JsonFormatter.JsonFormatter.FormatMessage | src/main/java/com/kevinherron/modbus/cli/output/JsonFormatter.java:89-104 | nothing for an INFO message in quiet mode; otherwise one message record |
| JsonFormatter.JsonFormatter.FormatRegisterTable | src/main/java/com/kevinherron/modbus/cli/output/JsonFormatter.java:107-132 | one register table record, whatever the quiet flag |
| JsonFormatter.JsonFormatter.FormatCoilTable | src/main/java/com/kevinherron/modbus/cli/output/JsonFormatter.java:135-160 | one coil table record, whatever the quiet flag |
| JsonFormatter.JsonFormatter.FormatScanResults | src/main/java/com/kevinherron/modbus/cli/output/JsonFormatter.java:163-216 | the lines `ScanLines` describes: none for a null or empty list or one without registers, else one scan record |
| HumanFormatter.TableLines | src/main/java/com/kevinherron/modbus/cli/output/HumanFormatter.java:99-105 | a table prints its two header lines and one line per row |
| HumanFormatter.TimestampPrefix | src/main/java/com/kevinherron/modbus/cli/output/HumanFormatter.java:32-39 | the prefix is non-empty exactly when an iteration is set, and then is bracketed text ending in a space |
| HumanFormatter.Span | src/main/java/com/kevinherron/modbus/cli/output/HumanFormatter.java:117-137 | the cells of positions `lo..hi-1`, `hi - lo` of them |
| HumanFormatter.SpanIndex | src/main/java/com/kevinherron/modbus/cli/output/HumanFormatter.java:117-136 | cell `i` of a span is the cell of position `lo + i`: the byte or bit there, or a filler outside the range |
| HumanFormatter.GridCells | src/main/java/com/kevinherron/modbus/cli/output/HumanFormatter.java:108-139 | the rows, read cell by cell, cover the positions from the first row's start on, in order and without gaps |
| HumanFormatter.GridEnd | src/main/java/com/kevinherron/modbus/cli/output/HumanFormatter.java:108 | when the last row start is reachable from the first, the rows end exactly one row past it |
| HumanFormatter.GridShape | src/main/java/com/kevinherron/modbus/cli/output/HumanFormatter.java:108-117 | every row has `width` cells, the first starts at the first row start and each next one `width` further |
| HumanFormatter.GridAligned | src/main/java/com/kevinherron/modbus/cli/output/HumanFormatter.java:95-96 | rows that start aligned stay aligned |
| HumanFormatter.ByteSpan | src/main/java/com/kevinherron/modbus/cli/output/HumanFormatter.java:118-135 | the byte cells of a span are exactly the register bytes it overlaps, in order |
| HumanFormatter.ByteSpanAll | src/main/java/com/kevinherron/modbus/cli/output/HumanFormatter.java:118-135 | a span from at or before the first byte to past the last shows every register byte once, in order |
| HumanFormatter.RegisterRowsLayout | src/main/java/com/kevinherron/modbus/cli/output/HumanFormatter.java:91-117 | register rows have 16 cells, are 16-aligned, start at the row of the first byte and follow at 16-byte steps |
| HumanFormatter.RegisterBytesInOrder | src/main/java/com/kevinherron/modbus/cli/output/HumanFormatter.java:118-136 | for a non-negative start address the in-range cells list every register byte exactly once, in order |
| HumanFormatter.JavaDivBounds16 | src/main/java/com/kevinherron/modbus/cli/output/HumanFormatter.java:95-96 | the truncating row start of a number from -15 up is within 15 of it, and never above a non-negative one |
| HumanFormatter.JavaDivBounds8 | src/main/java/com/kevinherron/modbus/cli/output/HumanFormatter.java:160-161 | the truncating row start of a number from -7 up is within 7 of it, and never above a non-negative one |
| HumanFormatter.BitSpan | src/main/java/com/kevinherron/modbus/cli/output/HumanFormatter.java:183-198 | the bit cells of a span are exactly the coils it overlaps, in order |
| HumanFormatter.BitSpanAll | src/main/java/com/kevinherron/modbus/cli/output/HumanFormatter.java:183-198 | a span from at or before the first coil to past the last shows every coil once, in order |
| HumanFormatter.CoilRowsLayout | src/main/java/com/kevinherron/modbus/cli/output/HumanFormatter.java:159-182 | coil rows have 8 cells, are 8-aligned, start at the row of the first coil and follow at steps of 8 |
| HumanFormatter.CoilBitsInOrder | src/main/java/com/kevinherron/modbus/cli/output/HumanFormatter.java:151-199 | for a non-negative start address the bit cells are exactly the unpacked coils, in order |
| HumanFormatter.ClassifyMeaning | src/main/java/com/kevinherron/modbus/cli/output/HumanFormatter.java:276-292 | green exactly for one reading, yellow exactly for several equal readings, red exactly when some reading differs from the first |
| HumanFormatter.LineNext | src/main/java/com/kevinherron/modbus/cli/output/HumanFormatter.java:265-300 | the index of the next unprinted address never moves back |
| HumanFormatter.LineCells | src/main/java/com/kevinherron/modbus/cli/output/HumanFormatter.java:265-308 | a line has at most eight cells |
| HumanFormatter.LineStartBounds | src/main/java/com/kevinherron/modbus/cli/output/HumanFormatter.java:250-251 | with floor division each address lies in the eight positions of its line, which starts at a multiple of 8 |
| HumanFormatter.LineProgress | src/main/java/com/kevinherron/modbus/cli/output/HumanFormatter.java:249-300 | a line that starts at most seven positions before the next address prints it, so each line consumes at least one address |
| HumanFormatter.ScanRowsStep | src/main/java/com/kevinherron/modbus/cli/output/HumanFormatter.java:249-313 | the table is the line starting at the next address's line start, then the table from the first address that line did not print |
| HumanFormatter.LineAddresses | src/main/java/com/kevinherron/modbus/cli/output/HumanFormatter.java:265-300 | within a line the printed addresses are the next ones of the sorted list, in order |
| HumanFormatter.LinePositions | src/main/java/com/kevinherron/modbus/cli/output/HumanFormatter.java:265-274 | within a line each value cell sits at its address's position and shows that address's first reading |
| HumanFormatter.LineEnd | src/main/java/com/kevinherron/modbus/cli/output/HumanFormatter.java:294-300 | the line that prints the last address ends with its value cell |
| HumanFormatter.ScanRowsAddresses | src/main/java/com/kevinherron/modbus/cli/output/HumanFormatter.java:249-313 | the scan table prints every observed address exactly once, ascending |
| HumanFormatter.ScanRowsLayout | src/main/java/com/kevinherron/modbus/cli/output/HumanFormatter.java:249-313 | each line starts at a multiple of 8, has one to eight cells, and each value cell sits at its address's position with that address's first reading |
| HumanFormatter.ScanRowsEndAtLastAddress | src/main/java/com/kevinherron/modbus/cli/output/HumanFormatter.java:294-300 | the final line stops right after the last address |
| HumanFormatter.CoversReadings | src/main/java/com/kevinherron/modbus/cli/output/HumanFormatter.java:213-233 | every sorted address has at least one reading in the aggregated map |
| HumanFormatter.NegativeAddressStalls | src/main/java/com/kevinherron/modbus/cli/output/HumanFormatter.java:249-268 | as written, a negative address that is not a multiple of 8 gets a line start above it; that line prints no address and the index does not move |
| HumanFormatter.NegativeAddressExample | src/main/java/com/kevinherron/modbus/cli/output/HumanFormatter.java:249-268 | a scan that observed only address -3: line start 0, and the line prints nothing |
| HumanFormatter.LineStartAgrees | src/main/java/com/kevinherron/modbus/cli/output/HumanFormatter.java:250-251 | the floor-division line start equals the truncating one for every non-negative address and every multiple of 8 |
| HumanFormatter.HumanFormatter.constructor | src/main/java/com/kevinherron/modbus/cli/output/HumanFormatter.java:25 | a new formatter has no iteration set |
| HumanFormatter.HumanFormatter.SetIteration | src/main/java/com/kevinherron/modbus/cli/output/HumanFormatter.java:28-30 | the iteration tag becomes the given one |
| HumanFormatter.HumanFormatter.FormatProtocol | src/main/java/com/kevinherron/modbus/cli/output/HumanFormatter.java:42-62 | nothing in quiet mode; otherwise one line: prefix, arrow, space, PDU text |
| HumanFormatter.HumanFormatter.FormatMessage | src/main/java/com/kevinherron/modbus/cli/output/HumanFormatter.java:65-81 | nothing for an INFO message in quiet mode; otherwise the prefix of the current time and the message |
| HumanFormatter.HumanFormatter.FormatRegisterTable | src/main/java/com/kevinherron/modbus/cli/output/HumanFormatter.java:84-140 | the register table with the rows `RegisterRows` lays out, whatever the quiet flag |
| HumanFormatter.HumanFormatter.FormatCoilTable | src/main/java/com/kevinherron/modbus/cli/output/HumanFormatter.java:143-203 | the coil table of the unpacked bits with the rows `CoilRows` lays out, whatever the quiet flag |
| HumanFormatter.HumanFormatter.FormatScanResults | src/main/java/com/kevinherron/modbus/cli/output/HumanFormatter.java:206-314 | the scan table `ScanOutput` describes, with floor-division line starts |
| HumanFormatter.ScanLinesLoop | src/main/java/com/kevinherron/modbus/cli/output/HumanFormatter.java:247-313 | the `while` loop prints exactly the lines `ScanRowsFrom` describes |
| HumanFormatter.PrintLine | src/main/java/com/kevinherron/modbus/cli/output/HumanFormatter.java:264-309 | one line: the eight positions from its start, stopping right after the last address, and at least one address consumed |
| HumanFormatter.ValueCellAt | src/main/java/com/kevinherron/modbus/cli/output/HumanFormatter.java:268-292 | the cell of an address is its first reading, coloured by all its readings when colours are on |
| HumanFormatter.ValueColour | src/main/java/com/kevinherron/modbus/cli/output/HumanFormatter.java:276-292 | the colour is the three-way classification when colours are on, none otherwise |
| HumanFormatter.RegisterRowCells | src/main/java/com/kevinherron/modbus/cli/output/HumanFormatter.java:117-137 | the sixteen cells of a register row, each the byte at its offset or a filler |
| HumanFormatter.RegisterRowsLoop | src/main/java/com/kevinherron/modbus/cli/output/HumanFormatter.java:108-139 | the row loop prints exactly the grid rows from the first to the last row offset |
| HumanFormatter.CoilRowsLoop | src/main/java/com/kevinherron/modbus/cli/output/HumanFormatter.java:174-202 | the row loop prints exactly the grid rows from the first to the last row address |
| HumanFormatter.CoilRowCells | src/main/java/com/kevinherron/modbus/cli/output/HumanFormatter.java:182-200 | the eight cells of a coil row, each the bit at its address or a filler |
| HumanFormatter.UnpackCoilArray | src/main/java/com/kevinherron/modbus/cli/output/HumanFormatter.java:151-156 | the `bits` array holds exactly the unpacked coils |
| DefaultOutputContext.MessageStream | src/main/java/com/kevinherron/modbus/cli/output/DefaultOutputContext.java:29-51 | a message goes to stderr exactly when it is a WARNING or an ERROR |
| DefaultOutputContext.ProtocolLines | src/main/java/com/kevinherron/modbus/cli/output/DefaultOutputContext.java:24-27 | no line exactly in quiet mode, otherwise one |
| DefaultOutputContext.MessageLines | src/main/java/com/kevinherron/modbus/cli/output/DefaultOutputContext.java:29-51 | no line exactly for an INFO message in quiet mode, otherwise one |
| DefaultOutputContext.RegisterTableLines | src/main/java/com/kevinherron/modbus/cli/output/DefaultOutputContext.java:91-94 | a register table always prints |
| DefaultOutputContext.CoilTableLines | src/main/java/com/kevinherron/modbus/cli/output/DefaultOutputContext.java:127-130 | a coil table always prints |
| DefaultOutputContext.ScanResultLines | src/main/java/com/kevinherron/modbus/cli/output/DefaultOutputContext.java:142-145 | a null or empty list prints nothing, in either format |
| DefaultOutputContext.DefaultOutputContext.constructor | src/main/java/com/kevinherron/modbus/cli/output/DefaultOutputContext.java:11-17 | the context holds the formatter and options, with both streams empty |
| DefaultOutputContext.DefaultOutputContext.SetIteration | src/main/java/com/kevinherron/modbus/cli/output/DefaultOutputContext.java:19-22 | the formatter's tag becomes the given one |
| DefaultOutputContext.DefaultOutputContext.Protocol | src/main/java/com/kevinherron/modbus/cli/output/DefaultOutputContext.java:24-27 | stdout grows by the formatter's protocol lines; stderr is unchanged |
| DefaultOutputContext.DefaultOutputContext.MessageFor | src/main/java/com/kevinherron/modbus/cli/output/DefaultOutputContext.java:29-51 | the formatter's lines for a message, whichever formatter it is |
| DefaultOutputContext.DefaultOutputContext.Info | src/main/java/com/kevinherron/modbus/cli/output/DefaultOutputContext.java:29-33 | the message is `String.format(format, args)`; when that formats, stdout grows by the INFO lines of the formatted message, and when it throws, nothing is written; stderr is always unchanged |
| DefaultOutputContext.DefaultOutputContext.Success | src/main/java/com/kevinherron/modbus/cli/output/DefaultOutputContext.java:35-39 | the message is `String.format(format, args)`; when that formats, stdout grows by the SUCCESS lines of the formatted message, and when it throws, nothing is written; stderr is always unchanged |
| DefaultOutputContext.DefaultOutputContext.Warning | src/main/java/com/kevinherron/modbus/cli/output/DefaultOutputContext.java:41-45 | the message is `String.format(format, args)`; when that formats, stderr grows by the WARNING lines of the formatted message, and when it throws, nothing is written; stdout is always unchanged |
| DefaultOutputContext.DefaultOutputContext.Error | src/main/java/com/kevinherron/modbus/cli/output/DefaultOutputContext.java:47-51 | the message is `String.format(format, args)`; when that formats, stderr grows by the ERROR lines of the formatted message, and when it throws, nothing is written; stdout is always unchanged |
| DefaultOutputContext.DefaultOutputContext.Message | src/main/java/com/kevinherron/modbus/cli/output/DefaultOutputContext.java:29-51 | a message that formats lands, formatted, on the stream `MessageStream` names and the other stream is untouched; one that does not format writes nothing |
| JavaText.Format | src/main/java/com/kevinherron/modbus/cli/output/DefaultOutputContext.java:31 | a format without `%` formats to itself |
| JavaText.ArgText | src/main/java/com/kevinherron/modbus/cli/output/DefaultOutputContext.java:31 | `%s` writes any argument, a null one as `null`; `%d` writes an integer in decimal and throws on a string |
| JavaText.FormatPlainPrefix | src/main/java/com/kevinherron/modbus/cli/output/DefaultOutputContext.java:31 | text before the first `%` is copied unchanged ahead of what the rest formats to |
| JavaText.FormatConversion | src/main/java/com/kevinherron/modbus/cli/output/DefaultOutputContext.java:31 | a `%s` or `%d` consumes the next argument and fails when there is none or it does not convert |
| JavaText.FormatOneString | src/main/java/com/kevinherron/modbus/cli/output/DefaultOutputContext.java:31 | `String.format("%s", x)` is `x`'s text |
| DefaultOutputContext.DefaultOutputContext.RegisterTable | src/main/java/com/kevinherron/modbus/cli/output/DefaultOutputContext.java:53-56 | a fresh builder with no data, start address 0 and no timestamp |
| DefaultOutputContext.DefaultOutputContext.CoilTable | src/main/java/com/kevinherron/modbus/cli/output/DefaultOutputContext.java:58-61 | a fresh builder with no data, start address 0, quantity 0 and no timestamp |
| DefaultOutputContext.DefaultOutputContext.ScanResults | src/main/java/com/kevinherron/modbus/cli/output/DefaultOutputContext.java:63-66 | a fresh builder with no result list |
| DefaultOutputContext.RegisterTableBuilder.Data | src/main/java/com/kevinherron/modbus/cli/output/DefaultOutputContext.java:73-77 | sets the bytes and returns the builder; the other fields are unchanged |
| DefaultOutputContext.RegisterTableBuilder.StartAddress | src/main/java/com/kevinherron/modbus/cli/output/DefaultOutputContext.java:79-83 | sets the start address and returns the builder; the other fields are unchanged |
| DefaultOutputContext.RegisterTableBuilder.Timestamp | src/main/java/com/kevinherron/modbus/cli/output/DefaultOutputContext.java:85-89 | sets the timestamp and returns the builder; the other fields are unchanged |
| DefaultOutputContext.RegisterTableBuilder.Render | src/main/java/com/kevinherron/modbus/cli/output/DefaultOutputContext.java:91-94 | stdout grows by the table of the last-set fields; stderr is unchanged |
| DefaultOutputContext.CoilTableBuilder.Data | src/main/java/com/kevinherron/modbus/cli/output/DefaultOutputContext.java:103-107 | sets the bytes and returns the builder; the other fields are unchanged |
| DefaultOutputContext.CoilTableBuilder.StartAddress | src/main/java/com/kevinherron/modbus/cli/output/DefaultOutputContext.java:109-113 | sets the start address and returns the builder; the other fields are unchanged |
| DefaultOutputContext.CoilTableBuilder.Quantity | src/main/java/com/kevinherron/modbus/cli/output/DefaultOutputContext.java:115-119 | sets the quantity and returns the builder; the other fields are unchanged |
| DefaultOutputContext.CoilTableBuilder.Timestamp | src/main/java/com/kevinherron/modbus/cli/output/DefaultOutputContext.java:121-125 | sets the timestamp and returns the builder; the other fields are unchanged |
| DefaultOutputContext.CoilTableBuilder.Render | src/main/java/com/kevinherron/modbus/cli/output/DefaultOutputContext.java:127-130 | stdout grows by the table of the last-set fields; stderr is unchanged |
| DefaultOutputContext.ScanResultsBuilder.Results | src/main/java/com/kevinherron/modbus/cli/output/DefaultOutputContext.java:136-140 | sets the result list and returns the builder |
| DefaultOutputContext.ScanResultsBuilder.Render | src/main/java/com/kevinherron/modbus/cli/output/DefaultOutputContext.java:142-145 | stdout grows by the scan output of the last-set list (nothing when unset); stderr is unchanged |
| RegisterBytes.Decode | src/main/java/com/kevinherron/modbus/cli/client/WriteMultipleRegistersCommand.java:67-68 | two bytes decode to a value in `0..65535` |
| RegisterBytes.EncodeDecode | src/main/java/com/kevinherron/modbus/cli/client/WriteMultipleRegistersCommand.java:67-68 | the high and low bytes of any int decode to it modulo 2^16 |
| RegisterBytes.DecodeInjective | src/main/java/com/kevinherron/modbus/cli/client/WriteMultipleRegistersCommand.java:67-68 | each 16-bit value decodes from exactly one byte pair |
| RegisterBytes.EncodeDecodeUnsigned | src/main/java/com/kevinherron/modbus/cli/client/WriteMultipleRegistersCommand.java:67-68 | values `0..65535` decode back unchanged |
| RegisterBytes.MinusOne | src/main/java/com/kevinherron/modbus/cli/client/WriteMultipleRegistersCommand.java:67-68 | -1 goes on the wire as `FF FF` and decodes as 65535 |
| RequestValues.ParseEach | src/main/java/com/kevinherron/modbus/cli/client/WriteMultipleCoilsCommand.java:64-67 | the list parses exactly when every field does, then holds each field's value in order; otherwise the first failing field's error |
| RequestValues.FirstError | src/main/java/com/kevinherron/modbus/cli/client/WriteMultipleCoilsCommand.java:64-67 | when the fields before `i` parse and field `i` does not, the list fails with field `i`'s error |
| RequestValues.AllParsed | src/main/java/com/kevinherron/modbus/cli/client/WriteMultipleCoilsCommand.java:64-67 | when every field parses, the list is exactly the parsed values |
| RequestValues.EncodeRegisters | src/main/java/com/kevinherron/modbus/cli/client/WriteMultipleRegistersCommand.java:64-69 | the loop yields the first parse error, or `2 * n` bytes holding the parsed values big-endian |
| RequestValues.WireBytesBigEndian | src/main/java/com/kevinherron/modbus/cli/client/WriteMultipleRegistersCommand.java:67-68 | bytes equal to the per-index wire byte are the big-endian encoding |
| RequestValues.BigEndianDecodes | src/main/java/com/kevinherron/modbus/cli/client/WriteMultipleRegistersCommand.java:66-68 | each byte pair decodes to its value modulo 2^16: 0..65535 unchanged, -1 as 65535 |
| RequestValues.BigEndianUnique | src/main/java/com/kevinherron/modbus/cli/client/WriteMultipleRegistersCommand.java:64-69 | the register bytes are determined by the values |
| WriteMultipleCoilsCommand.CoilRequestBytes | src/main/java/com/kevinherron/modbus/cli/client/WriteMultipleCoilsCommand.java:56-79 | a count mismatch fails with the count message before parsing; otherwise the first parse error, or the coils packed LSB first |
| WriteMultipleCoilsCommand.ParseCoils | src/main/java/com/kevinherron/modbus/cli/client/WriteMultipleCoilsCommand.java:64-67 | the first loop parses each trimmed field with `parseCoilValue`, failing with the first error |
| WriteMultipleCoilsCommand.PackCoils | src/main/java/com/kevinherron/modbus/cli/client/WriteMultipleCoilsCommand.java:69-79 | `(n + 7) / 8` bytes in which bit `i % 8` of byte `i / 8` is set exactly when coil `i` is true, padding bits 0 |
| WriteMultipleCoilsCommand.PackStep | src/main/java/com/kevinherron/modbus/cli/client/WriteMultipleCoilsCommand.java:73-78 | one pass ORs in coil `i` and changes no other bit |
| WriteMultipleCoilsCommand.PackedUnpacks | src/main/java/com/kevinherron/modbus/cli/client/WriteMultipleCoilsCommand.java:73-79 | unpacking the packed bytes with the formatters' LSB-first rule gives back the coil values |
| WriteMultipleCoilsCommand.PackingUnique | src/main/java/com/kevinherron/modbus/cli/client/WriteMultipleCoilsCommand.java:69-79 | the packed bytes are determined by the coil values |
| WriteMultipleRegistersCommand.RegisterValues | src/main/java/com/kevinherron/modbus/cli/client/WriteMultipleRegistersCommand.java:56-69 | a count mismatch fails with the count message; otherwise the first `parseRegisterValue` error, or `2 * quantity` bytes holding the values big-endian |
| ReadWriteMultipleRegistersCommand.ParseDecimal | src/main/java/com/kevinherron/modbus/cli/client/ReadWriteMultipleRegistersCommand.java:74 | succeeds exactly when `Integer.parseInt` does, with its value; otherwise its error message |
| ReadWriteMultipleRegistersCommand.WriteValues | src/main/java/com/kevinherron/modbus/cli/client/ReadWriteMultipleRegistersCommand.java:64-77 | a count mismatch fails with the write-count message; otherwise the first `Integer.parseInt` error, or `2 * writeQuantity` bytes holding the values big-endian |
| ReadWriteMultipleRegistersCommand.HexOnlyForWriteMultiple | src/main/java/com/kevinherron/modbus/cli/client/ReadWriteMultipleRegistersCommand.java:74 | a `0x` token that `wmr` reads as `n` is rejected here |
| ReadWriteMultipleRegistersCommand.BareRegisterIsDecimal | src/main/java/com/kevinherron/modbus/cli/client/ReadWriteMultipleRegistersCommand.java:74 | on a token without the `0x` prefix, `wmr`'s register reader and this command's `Integer.parseInt` of the trimmed token both succeed or both fail, with the same value |
| ReadWriteMultipleRegistersCommand.PrefixRejected | src/main/java/com/kevinherron/modbus/cli/client/ReadWriteMultipleRegistersCommand.java:74 | a token whose second character is `x` or `X` is no decimal number |
| SerialPortOptions.ResolveDataBits | src/main/java/com/kevinherron/modbus/cli/SerialPortOptions.java:72-77 | succeeds exactly for 5..8, with the value unchanged; otherwise the data-bits error |
| SerialPortOptions.ResolveStopBits | src/main/java/com/kevinherron/modbus/cli/SerialPortOptions.java:85-91 | 1 gives one stop bit and 2 two, exactly; anything else the stop-bits error |
| SerialPortOptions.ResolveParity | src/main/java/com/kevinherron/modbus/cli/SerialPortOptions.java:100-108 | after trim and upper-case, exactly `N`, `E` and `O` give no, even and odd parity; anything else the parity error |
| SerialPortOptions.Rs485Parameters | src/main/java/com/kevinherron/modbus/cli/SerialPortOptions.java:115-125 | parameters are applied exactly when `--rs485` is set, and then carry the five option values |
| SerialPortOptions.ParitiesDistinct | src/main/java/com/kevinherron/modbus/cli/SerialPortOptions.java:100-108 | two accepted parity letters give the same parity exactly when they are the same letter |
| SerialPortOptions.ParityAnyCaseAnyPadding | src/main/java/com/kevinherron/modbus/cli/SerialPortOptions.java:100-108 | a parity letter in either case, padded with trimmable characters, is accepted as its parity |
| SerialPortOptions.DefaultsResolve | src/main/java/com/kevinherron/modbus/cli/SerialPortOptions.java:22-34 | the defaults (8 data bits, 1 stop bit, parity `N`, RS-485 off) all resolve |
| ClientCommand.ErrorTextFormatted | src/main/java/com/kevinherron/modbus/cli/client/ClientCommand.java:319-327 | the report is what `error("%s", …)` formats from the stack trace in verbose mode, otherwise from the message, and it always formats |
| ClientCommand.EndpointInfoFormatted | src/main/java/com/kevinherron/modbus/cli/client/ClientCommand.java:329-341 | the announcement is what `info` formats from the source's format string for a TCP endpoint, an RS-485 serial port or a plain serial port, with the hostname, port, serial port and unit id as arguments |
| ClientCommand.TcpInfoFormatted | src/main/java/com/kevinherron/modbus/cli/client/ClientCommand.java:331-332 | the TCP format string with a hostname, port and unit id formats to the hostname, decimal port and decimal unit id between the fixed text |
| ClientCommand.ErrorTextChoice | src/main/java/com/kevinherron/modbus/cli/client/ClientCommand.java:319-327 | the verbose report depends only on the stack trace, the plain one only on the message, which prints as `null` when absent |
| ClientCommand.CreateClient | src/main/java/com/kevinherron/modbus/cli/client/ClientCommand.java:145-198 | a TCP client on the endpoint's host and port is always created; an RTU client exactly when data bits, stop bits and parity resolve, the first invalid one (in that order) giving its error; the RTU client carries the serial port, the baud rate, the data bits, the resolved stop bits and parity, the RS-485 parameters, and the timeout, as does the TCP client |
| ClientCommand.ExecuteWithClient | src/main/java/com/kevinherron/modbus/cli/client/ClientCommand.java:261-292 | the steps are those `ExecuteTrace` describes |
| ClientCommand.RunLifecycle | src/main/java/com/kevinherron/modbus/cli/client/ClientCommand.java:264-291 | one statement per step: a parse or creation failure is reported alone; otherwise announcement, connect, the action (unless connect failed), its failure if any, disconnect |
| ClientCommand.SetupFailureNeverConnects | src/main/java/com/kevinherron/modbus/cli/client/ClientCommand.java:264-278 | a parse or creation failure is the only step, and nothing connects |
| ClientCommand.BracketedShape | src/main/java/com/kevinherron/modbus/cli/client/ClientCommand.java:280-291 | between the one connect and the one disconnect lie exactly the middle steps |
| ClientCommand.DisconnectAfterConnect | src/main/java/com/kevinherron/modbus/cli/client/ClientCommand.java:281-291 | once connect is attempted it happens once, and the last step is the one disconnect, whether connect or the action failed |
| ClientCommand.LifecycleStarted | src/main/java/com/kevinherron/modbus/cli/client/ClientCommand.java:280-291 | once the client is created the steps are the announcement and the connected steps between connect and disconnect |
| ClientCommand.ConnectFailureReported | src/main/java/com/kevinherron/modbus/cli/client/ClientCommand.java:281-286 | a failing connect is reported between connect and disconnect and the action does not run |
| ClientCommand.ActionFailureReported | src/main/java/com/kevinherron/modbus/cli/client/ClientCommand.java:283-288 | a failing action is reported after its own steps and before the disconnect |
| ClientCommand.RunWithClient | src/main/java/com/kevinherron/modbus/cli/client/ClientCommand.java:209-211 | one run of the command inside the lifecycle |
| ClientCommand.SleepMs | src/main/java/com/kevinherron/modbus/cli/client/ClientCommand.java:246 | the sleep is never negative, and is the interval less the elapsed time when that is positive |
| ClientCommand.PollLoop | src/main/java/com/kevinherron/modbus/cli/client/ClientCommand.java:230-248 | the `while` loop yields exactly the steps of its iterations |
| ClientCommand.RunWithClientPolling | src/main/java/com/kevinherron/modbus/cli/client/ClientCommand.java:227-250 | the polling loop runs as the action of the lifecycle; a failing run is reported inside the loop, so with a positive count the action does not fail, and with count 0 the action fails with the interruption `Thread.sleep` throws |
| ClientCommand.EndlessPollingInterrupted | src/main/java/com/kevinherron/modbus/cli/client/ClientCommand.java:227-291 | an endless poll that got connected runs all its iterations, then the interruption is reported, then the client disconnects |
| ClientCommand.PollCounts | src/main/java/com/kevinherron/modbus/cli/client/ClientCommand.java:230-247 | the first `k` iterations set tags `1..k` in order and run the command `k` times, failures or not; each iteration but the last of a positive count sleeps once |
| ClientCommand.TagBeforeRun | src/main/java/com/kevinherron/modbus/cli/client/ClientCommand.java:232-237 | every run of the command is immediately preceded by the setting of an iteration tag |
| ClientCommand.PollSchedule | src/main/java/com/kevinherron/modbus/cli/client/ClientCommand.java:230-247 | a positive count runs exactly `count` tagged iterations with `count - 1` sleeps; a negative count runs nothing |
| ClientCommand.EndlessPolling | src/main/java/com/kevinherron/modbus/cli/client/ClientCommand.java:231-247 | with count 0 every iteration ends with its sleep: the count never stops the loop |
| ServerCommand.InitializeRegisters | src/main/java/com/kevinherron/modbus/cli/server/ServerCommand.java:197-204 | every address 0..65535 maps to its own high and low byte, which decode to the address; other entries are kept |
| ServerCommand.InitializeBooleans | src/main/java/com/kevinherron/modbus/cli/server/ServerCommand.java:212-216 | every address 0..65535 maps to `a % 2 == 0`; other entries are kept |
| ServerCommand.CreateProcessImage | src/main/java/com/kevinherron/modbus/cli/server/ServerCommand.java:180-190 | the four tables are filled by the matching initializer |
| ServerCommand.DefaultImageComplete | src/main/java/com/kevinherron/modbus/cli/server/ServerCommand.java:180-204 | the default image holds a two-byte register at every address, each reading back as its address |
| ServerCommand.DefaultRegisterDecodes | src/main/java/com/kevinherron/modbus/cli/server/ServerCommand.java:197-204 | each address 0..65535 has a two-byte default register that decodes to the address |
| ServerCommand.SameImage | src/main/java/com/kevinherron/modbus/cli/server/ServerCommand.java:151 | two units share an image exactly when units are shared or the ids are equal |
| ServerCommand.Services.constructor | src/main/java/com/kevinherron/modbus/cli/server/ServerCommand.java:145-147 | a new service has no process images |
| ServerCommand.Services.GetProcessImage | src/main/java/com/kevinherron/modbus/cli/server/ServerCommand.java:150-153 | the image of the unit's key: created and stored on first request, the stored one afterwards |
| ServerCommand.Services.WriteSingleRegister | src/main/java/com/kevinherron/modbus/cli/server/ServerCommand.java:150-153 | a write replaces one register of the unit's image and nothing else |
| ServerCommand.Services.ReadHoldingRegister | src/main/java/com/kevinherron/modbus/cli/server/ServerCommand.java:150-153 | a read decodes the register of the unit's image, storing the image if new |
| ServerCommand.UnitsShareOrIsolate | src/test/java/com/kevinherron/modbus/cli/server/SeparateUnitsIT.java:16-66 | a written register reads back through its unit; another unit sees the written value when units are shared and the default (the address) when separate |
| TestProcessImage.ToByteArray | src/test/java/com/kevinherron/modbus/cli/test/TestProcessImage.java:176-178 | two bytes that decode to the value's low 16 bits |
| TestProcessImage.FromByteArray | src/test/java/com/kevinherron/modbus/cli/test/TestProcessImage.java:180-182 | an unsigned value in `0..65535` |
| TestProcessImage.RoundTrip | src/test/java/com/kevinherron/modbus/cli/test/TestProcessImage.java:176-182 | `fromByteArray(toByteArray(v)) == v mod 2^16`: `v` for 0..65535, 65535 for -1 |
| TestProcessImage.ToByteArrayInjective | src/test/java/com/kevinherron/modbus/cli/test/TestProcessImage.java:176-178 | two values encode alike exactly when they agree modulo 2^16 |
| TestProcessImage.PutAll | src/test/java/com/kevinherron/modbus/cli/test/TestProcessImage.java:37-39 | the range loop puts `values[i]` at `address + i` and keeps every other entry |
| TestProcessImage.RegisterOrZero | src/test/java/com/kevinherron/modbus/cli/test/TestProcessImage.java:135-136 | a missing register reads 0 |
| TestProcessImage.BitOrFalse | src/test/java/com/kevinherron/modbus/cli/test/TestProcessImage.java:163 | a bit reads true exactly when it is stored as true |
| TestProcessImage.RegisterRangeReadBack | src/test/java/com/kevinherron/modbus/cli/test/TestProcessImage.java:32-41 | after a range write, addresses in the range read their value's low 16 bits and the others are unchanged |
| TestProcessImage.TestImage.constructor | src/test/java/com/kevinherron/modbus/cli/test/TestProcessImage.java:14 | a new image has four empty tables |
| TestProcessImage.TestImage.GetHoldingRegister | src/test/java/com/kevinherron/modbus/cli/test/TestProcessImage.java:130-138 | a holding register reads as a value in `0..65535` |
| TestProcessImage.TestImage.GetInputRegister | src/test/java/com/kevinherron/modbus/cli/test/TestProcessImage.java:146-154 | an input register reads as a value in `0..65535` |
| TestProcessImage.TestImage.GetCoil | src/test/java/com/kevinherron/modbus/cli/test/TestProcessImage.java:162-164 | a coil reads true exactly when it is stored as true; an unset coil reads false |
| TestProcessImage.TestImage.GetDiscreteInput | src/test/java/com/kevinherron/modbus/cli/test/TestProcessImage.java:172-174 | a discrete input reads true exactly when it is stored as true; an unset input reads false |
| TestProcessImage.TestImage.SetHoldingRegister | src/test/java/com/kevinherron/modbus/cli/test/TestProcessImage.java:22-24 | the register reads back as the value's low 16 bits; every other one is unchanged |
| TestProcessImage.TestImage.SetHoldingRegisters | src/test/java/com/kevinherron/modbus/cli/test/TestProcessImage.java:32-41 | addresses in the range read their values' low 16 bits; all other addresses and tables are unchanged |
| TestProcessImage.TestImage.SetInputRegister | src/test/java/com/kevinherron/modbus/cli/test/TestProcessImage.java:49-51 | the register reads back as the value's low 16 bits; every other one is unchanged |
| TestProcessImage.TestImage.SetInputRegisters | src/test/java/com/kevinherron/modbus/cli/test/TestProcessImage.java:59-68 | addresses in the range read their values' low 16 bits; all other addresses and tables are unchanged |
| TestProcessImage.TestImage.SetCoil | src/test/java/com/kevinherron/modbus/cli/test/TestProcessImage.java:76-78 | the coil reads back as the value; every other one is unchanged |
| TestProcessImage.TestImage.SetCoils | src/test/java/com/kevinherron/modbus/cli/test/TestProcessImage.java:86-95 | coils in the range read their values; all other addresses and tables are unchanged |
| TestProcessImage.TestImage.SetDiscreteInput | src/test/java/com/kevinherron/modbus/cli/test/TestProcessImage.java:103-105 | the input reads back as the value; every other one is unchanged |
| TestProcessImage.TestImage.SetDiscreteInputs | src/test/java/com/kevinherron/modbus/cli/test/TestProcessImage.java:113-122 | inputs in the range read their values; all other addresses and tables are unchanged |
| ScanCommand.ScanOptions.constructor | src/main/java/com/kevinherron/modbus/cli/client/ScanCommand.java:47-67 | the options hold the values given, size and step possibly absent |
| ScanCommand.Unfold | src/main/java/com/kevinherron/modbus/cli/client/ScanCommand.java:94-110 | one pass of the loop: the window at `i` is read (unless it is short and partial windows are off) and the rest follows from `i + step` |
| DefaultOutputContext.RegisterTableBuilder.constructor | src/main/java/com/kevinherron/modbus/cli/output/DefaultOutputContext.java:68-71 | a new builder has no data, start address 0 and no timestamp |
| DefaultOutputContext.CoilTableBuilder.constructor | src/main/java/com/kevinherron/modbus/cli/output/DefaultOutputContext.java:97-101 | a new builder has no data, start address 0, quantity 0 and no timestamp |
| DefaultOutputContext.ScanResultsBuilder.constructor | src/main/java/com/kevinherron/modbus/cli/output/DefaultOutputContext.java:133-134 | a new builder has no result list |
| ClientCommand.IterationCounts | src/main/java/com/kevinherron/modbus/cli/client/ClientCommand.java:231-247 | one iteration sets its own tag once, runs once, and sleeps once exactly when it is not the last |
| ClientCommand.CountsAppend | src/main/java/com/kevinherron/modbus/cli/client/ClientCommand.java:230-248 | tags, runs and sleeps of consecutive steps add up |
| WriteMultipleCoilsCommand.SameBit | src/main/java/com/kevinherron/modbus/cli/client/WriteMultipleCoilsCommand.java:75-76 | two coil indexes name the same bit of the same byte only when equal |
| WriteMultipleCoilsCommand.SetBit | src/main/java/com/kevinherron/modbus/cli/client/WriteMultipleCoilsCommand.java:77 | OR-ing in bit `j` sets bit `j` and leaves the other seven |
| HumanFormatter.SpanConcat | src/main/java/com/kevinherron/modbus/cli/output/HumanFormatter.java:117-137 | the cells of adjacent ranges concatenate |
| HumanFormatter.GridStep | src/main/java/com/kevinherron/modbus/cli/output/HumanFormatter.java:108-139 | one pass of a row loop adds the next row to the rows printed so far |
| RequestValues.WireByteSnoc | src/main/java/com/kevinherron/modbus/cli/client/WriteMultipleRegistersCommand.java:64-69 | appending a register keeps the earlier bytes and adds its high then low byte |

## Left out

- Java's `Character.isDigit` and `toLowerCase`/`toUpperCase` are restricted to ASCII. The keywords and prefixes the core compares against are ASCII.
- `JavaText.ParseInt` accepts ASCII digits only. `Integer.parseInt` also accepts every other Unicode decimal digit, and in base 16 the fullwidth letters A to F (through `Character.digit`), so "١٢" parses to 12 in the source and is rejected here. This affects `ValueParser.ParseRegisterValue`, `ValueParser.ParseHexValue`, the port in `EndpointParser.ParseAfterBracket` and `ReadWriteMultipleRegistersCommand.ParseDecimal`.
- `JavaText.Format` models the `%s`, `%d` and `%%` conversions of `String.format`, with no flags, width, precision or argument index. These are the only conversions the core's format strings use. Any other conversion is modelled as a formatting failure.
- `java.net.URI` is not part of this model. `URI.create` is a parameter (`uriCreate`) that reports either the host, port and raw path or a syntax error. Only the checks `parseTcpUri` makes afterwards are modelled.
- The clock (`Instant.now`, `System.nanoTime`), the timestamp formatter and `Thread.sleep` are parameters. An instant is modelled as its two renderings (the ISO text and the display text), and the elapsed time of a run is an input.
- The device read of the scan, and the outcomes of connect and of the command action in the lifecycle, are passed in. No Modbus traffic is modelled. `disconnect` always follows, and it adds nothing to the trace: a `ModbusExecutionException` from it is swallowed as in the source, and any other exception it might throw is not modelled.
- `ScanCommand.Scan` and `ScanCommand.ScanOptions.Run` require that the loop ends: either no window is ever read, or the step is at least 1. With a step of 0 or less the source loops forever.
- Java `int` overflow of `i += step`, of `startAddress * 2` and of the address arithmetic in the formatters is not modelled; integers are unbounded.
- `ClientCommand.PollLoop`: with `count == 0` the source polls until it is interrupted. The model stops when the sequence of run outcomes is used up. `EndlessPolling` states that the count never stops the loop. `ClientCommand.RunWithClientPolling` takes the interruption as a parameter and reports it as the action's failure. An interruption of a poll with a positive count is not modelled.
- ANSI colour escapes are left out. Colour is kept only as the three-way classification of a scan value, or none when colours are off.
- PDU hex text and the PDU serialisers belong to the Modbus library. A PDU is modelled as its function code, its hex text and its encoded text.
- The TCP and RTU transports, client construction beyond the choice of client and serial settings, `configureRs485` (modelled as the parameters it would pass), and starting the server and sleeping are left out.
- `ServerCommand.Services`: the `ConcurrentHashMap` is a sequential map. A write to the shared image object is modelled as replacing that key's map entry. Request handling by the library is modelled only as a single-register write and read.
- The thin read commands, `MaskWriteRegisterCommand`, the picocli command-line layer and the integration-test harnesses are not part of this model.
- `HumanFormatter.HumanFormatter.FormatCoilTable` requires `0 <= quantity` and enough coil bytes. Otherwise the source's `new boolean[quantity]` or its byte indexing throws.
- `JsonFormatter.JsonFormatter.FormatCoilTable` requires only enough coil bytes, because the byte indexing throws otherwise. A negative quantity is allowed: the source collects the bits in a list, so it prints the negative quantity with an empty data list.
- `HumanFormatter.FormatScanResults` and `JsonFormatter.JsonFormatter.FormatScanResults` require every window to hold whole registers (`EvenLengths`). With an odd-length window the source indexes past the end of the array.
- `JsonFormatter.ToJsonOneLine`: numbers in `toJson` are modelled as `int` only; `Long` and floating-point values do not occur in the records the formatter builds.
- `ClientCommand.ErrorTextChoice`: the text `printStackTrace` writes is a parameter (`printed`) and is not modelled.
- `HumanFormatter.RegisterBytesInOrder` and `HumanFormatter.CoilBitsInOrder` are stated for non-negative start addresses only.

## Findings

| source | as written | input that shows it | evidently intended | confidence | as-written member | corrected member |
|---|---|---|---|---|---|---|
| src/main/java/com/kevinherron/modbus/cli/output/HumanFormatter.java:249-268 | the scan table's line start is `(address / 8) * 8` with Java's truncating `/`, so a negative address that is not a multiple of 8 gets a line start above it; that line prints no address and the `while` loop never advances | a scan that observed only address -3: the line start is 0 and the line from 0 to 7 prints nothing, so the same line is printed forever | the line start is the 8-aligned start at or below the address (floor division), as it already is for every non-negative address | not executed | `HumanFormatter.NegativeAddressStalls`, `HumanFormatter.NegativeAddressExample` | `HumanFormatter.LineStartBounds`, `HumanFormatter.LineProgress`, `HumanFormatter.ScanRowsAddresses` (line starts by `HumanFormatter.LineStart`) |
