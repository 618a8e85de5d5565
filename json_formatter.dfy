// The JSON output format: one object per line, keys in insertion order,
// strings escaped by five chained replacements.

module JsonFormatter {
  import opened Wrappers
  import opened JavaText
  import opened ScanCommand
  import opened OutputCommon

  /** The values `toJson` serialises. An object keeps its members in
      insertion order, as the `LinkedHashMap`s it is built from do. */
  datatype Json =
    | JNull
    | JBool(b: bool)
    | JInt(n: int)
    | JString(s: string)
    | JArray(items: seq<Json>)
    | JObject(members: seq<(string, Json)>)

  // ---------------------------------------------------------------------
  // escapeJson
  // ---------------------------------------------------------------------

  /** `s.replace(c, rep)` for a one-character target: every occurrence of
      `c`, left to right, becomes `rep`. */
  function ReplaceChar(s: string, c: char, rep: string): string {
    if |s| == 0 then "" else (if s[0] == c then rep else [s[0]]) + ReplaceChar(s[1..], c, rep)
  }

  lemma {:induction false} ReplaceConcat(a: string, b: string, c: char, rep: string)
    ensures ReplaceChar(a + b, c, rep) == ReplaceChar(a, c, rep) + ReplaceChar(b, c, rep)
  {
    if |a| == 0 {
      assert a + b == b;
    } else {
      assert (a + b)[1..] == a[1..] + b;
      ReplaceConcat(a[1..], b, c, rep);
    }
  }

  /** Backslashes are doubled first, so that the backslashes the later
      replacements introduce are not doubled again. */
  function EscapeJson(s: string): string {
    var backslashes := ReplaceChar(s, '\\', "\\\\");
    var quotes := ReplaceChar(backslashes, '"', "\\\"");
    var newlines := ReplaceChar(quotes, '\n', "\\n");
    var carriage := ReplaceChar(newlines, '\r', "\\r");
    ReplaceChar(carriage, '\t', "\\t")
  }

  /** The escape of one character, the reference the chained replacements
      are proved against. */
  function EscapeChar(c: char): string {
    if c == '\\' then "\\\\"
    else if c == '"' then "\\\""
    else if c == '\n' then "\\n"
    else if c == '\r' then "\\r"
    else if c == '\t' then "\\t"
    else [c]
  }

  function EscapeEach(s: string): string {
    if |s| == 0 then "" else EscapeChar(s[0]) + EscapeEach(s[1..])
  }

  lemma EscapeConcat(a: string, b: string)
    ensures EscapeJson(a + b) == EscapeJson(a) + EscapeJson(b)
  {
    ReplaceConcat(a, b, '\\', "\\\\");
    var a1, b1 := ReplaceChar(a, '\\', "\\\\"), ReplaceChar(b, '\\', "\\\\");
    ReplaceConcat(a1, b1, '"', "\\\"");
    var a2, b2 := ReplaceChar(a1, '"', "\\\""), ReplaceChar(b1, '"', "\\\"");
    ReplaceConcat(a2, b2, '\n', "\\n");
    var a3, b3 := ReplaceChar(a2, '\n', "\\n"), ReplaceChar(b2, '\n', "\\n");
    ReplaceConcat(a3, b3, '\r', "\\r");
    var a4, b4 := ReplaceChar(a3, '\r', "\\r"), ReplaceChar(b3, '\r', "\\r");
    ReplaceConcat(a4, b4, '\t', "\\t");
  }

  lemma ReplaceSingle(c: char, target: char, rep: string)
    ensures ReplaceChar([c], target, rep) == if c == target then rep else [c]
  {
    assert [c][1..] == [];
  }

  lemma {:induction false} ReplaceAbsent(s: string, target: char, rep: string)
    requires target !in s
    ensures ReplaceChar(s, target, rep) == s
  {
    if |s| > 0 {
      assert s[0] in s;
      assert forall x :: x in s[1..] ==> x in s;
      ReplaceAbsent(s[1..], target, rep);
      assert s == [s[0]] + s[1..];
    }
  }

  lemma EscapeOne(c: char)
    ensures EscapeJson([c]) == EscapeChar(c)
  {
    ReplaceSingle(c, '\\', "\\\\");
    if c == '\\' {
      ReplaceAbsent("\\\\", '"', "\\\"");
      ReplaceAbsent("\\\\", '\n', "\\n");
      ReplaceAbsent("\\\\", '\r', "\\r");
      ReplaceAbsent("\\\\", '\t', "\\t");
    } else {
      ReplaceSingle(c, '"', "\\\"");
      if c == '"' {
        ReplaceAbsent("\\\"", '\n', "\\n");
        ReplaceAbsent("\\\"", '\r', "\\r");
        ReplaceAbsent("\\\"", '\t', "\\t");
      } else {
        ReplaceSingle(c, '\n', "\\n");
        if c == '\n' {
          ReplaceAbsent("\\n", '\r', "\\r");
          ReplaceAbsent("\\n", '\t', "\\t");
        } else {
          ReplaceSingle(c, '\r', "\\r");
          if c == '\r' {
            ReplaceAbsent("\\r", '\t', "\\t");
          } else {
            ReplaceSingle(c, '\t', "\\t");
          }
        }
      }
    }
  }

  /** The five chained replacements escape every character independently. */
  lemma {:induction false} EscapeJsonPerChar(s: string)
    ensures EscapeJson(s) == EscapeEach(s)
  {
    if |s| > 0 {
      assert s == [s[0]] + s[1..];
      EscapeConcat([s[0]], s[1..]);
      EscapeOne(s[0]);
      EscapeJsonPerChar(s[1..]);
    }
  }

  /** What a JSON reader does with the escapes `escapeJson` emits. */
  function UnescapeChar(c: char): char {
    if c == 'n' then '\n' else if c == 'r' then '\r' else if c == 't' then '\t' else c
  }

  function Unescape(t: string): string
    decreases |t|
  {
    if |t| == 0 then ""
    else if t[0] == '\\' && |t| >= 2 then [UnescapeChar(t[1])] + Unescape(t[2..])
    else [t[0]] + Unescape(t[1..])
  }

  /** Reading one escaped character back, whatever follows it. */
  lemma UnescapeOne(c: char, rest: string)
    ensures Unescape(EscapeChar(c) + rest) == [c] + Unescape(rest)
  {
    var e := EscapeChar(c);
    if |e| == 2 {
      assert (e + rest)[2..] == rest;
    } else {
      assert (e + rest)[1..] == rest;
    }
  }

  lemma {:induction false} UnescapeEach(s: string)
    ensures Unescape(EscapeEach(s)) == s
  {
    if |s| > 0 {
      UnescapeOne(s[0], EscapeEach(s[1..]));
      UnescapeEach(s[1..]);
      assert s == [s[0]] + s[1..];
    }
  }

  /** Reading the escaped text back gives the original string. */
  lemma EscapeRoundTrip(s: string)
    ensures Unescape(EscapeJson(s)) == s
  {
    EscapeJsonPerChar(s);
    UnescapeEach(s);
  }

  predicate NoRawBreaks(t: string) {
    forall i :: 0 <= i < |t| ==> t[i] != '\n' && t[i] != '\r' && t[i] != '\t'
  }

  lemma {:induction false} EscapeEachNoBreaks(s: string)
    ensures NoRawBreaks(EscapeEach(s))
  {
    if |s| > 0 {
      EscapeEachNoBreaks(s[1..]);
      var e, rest := EscapeChar(s[0]), EscapeEach(s[1..]);
      assert NoRawBreaks(e);
      assert EscapeEach(s) == e + rest;
    }
  }

  /** An escaped string holds no raw line feed, carriage return or tab, so
      every record stays on one line. */
  lemma EscapeJsonNoBreaks(s: string)
    ensures NoRawBreaks(EscapeJson(s))
  {
    EscapeJsonPerChar(s);
    EscapeEachNoBreaks(s);
  }

  // ---------------------------------------------------------------------
  // toJson
  // ---------------------------------------------------------------------

  /** `toJson`: strings quoted and escaped, numbers and booleans by their
      `toString()`, lists and maps joined with commas; map keys are written
      unescaped. */
  function ToJson(j: Json): string
    decreases j
  {
    match j
    case JNull => "null"
    case JBool(b) => if b then "true" else "false"
    case JInt(n) => IntToString(n)
    case JString(s) => "\"" + EscapeJson(s) + "\""
    case JArray(items) =>
      "[" + Join(seq(|items|, i requires 0 <= i < |items| => ToJson(items[i])), ',') + "]"
    case JObject(ms) =>
      "{" + Join(seq(|ms|, i requires 0 <= i < |ms| => "\"" + ms[i].0 + "\":" + ToJson(ms[i].1)), ',') + "}"
  }

  /** Every object key, at any depth, is free of raw line breaks (the keys
      the formatter writes are fixed lower-case words). */
  predicate CleanKeys(j: Json)
    decreases j
  {
    match j
    case JArray(items) => forall i :: 0 <= i < |items| ==> CleanKeys(items[i])
    case JObject(ms) => forall i :: 0 <= i < |ms| ==> NoRawBreaks(ms[i].0) && CleanKeys(ms[i].1)
    case _ => true
  }

  lemma ConcatNoBreaks(a: string, b: string)
    requires NoRawBreaks(a) && NoRawBreaks(b)
    ensures NoRawBreaks(a + b)
  {
    forall i | 0 <= i < |a + b|
      ensures (a + b)[i] != '\n' && (a + b)[i] != '\r' && (a + b)[i] != '\t'
    {
      if i < |a| {
        assert (a + b)[i] == a[i];
      } else {
        assert (a + b)[i] == b[i - |a|];
      }
    }
  }

  lemma {:induction false} JoinNoBreaks(fs: seq<string>)
    requires forall i :: 0 <= i < |fs| ==> NoRawBreaks(fs[i])
    ensures NoRawBreaks(Join(fs, ','))
    decreases |fs|
  {
    if |fs| > 1 {
      JoinNoBreaks(fs[1..]);
      ConcatNoBreaks(fs[0], [',']);
      ConcatNoBreaks(fs[0] + [','], Join(fs[1..], ','));
    }
  }

  lemma IntNoBreaks(n: int)
    ensures NoRawBreaks(IntToString(n))
  {
    var digits := ToDigits(if n < 0 then -n else n, 10);
    assert NoRawBreaks(digits) by {
      forall i | 0 <= i < |digits|
        ensures digits[i] != '\n' && digits[i] != '\r' && digits[i] != '\t'
      {
        assert 0 <= DigitValue(digits[i]);
      }
    }
    if n < 0 {
      ConcatNoBreaks("-", digits);
    }
  }

  /** `toJson` writes no raw line feed, carriage return or tab when no key
      holds one, so `println(toJson(json))` prints each record as exactly
      one line. */
  lemma {:induction false} ToJsonOneLine(j: Json)
    requires CleanKeys(j)
    ensures NoRawBreaks(ToJson(j))
    decreases j
  {
    match j
    case JNull =>
    case JBool(b) =>
    case JInt(n) =>
      IntNoBreaks(n);
    case JString(s) =>
      EscapeJsonNoBreaks(s);
      ConcatNoBreaks("\"", EscapeJson(s));
      ConcatNoBreaks("\"" + EscapeJson(s), "\"");
    case JArray(items) =>
      var parts := seq(|items|, i requires 0 <= i < |items| => ToJson(items[i]));
      forall i | 0 <= i < |items|
        ensures NoRawBreaks(parts[i])
      {
        ToJsonOneLine(items[i]);
      }
      JoinNoBreaks(parts);
      ConcatNoBreaks("[", Join(parts, ','));
      ConcatNoBreaks("[" + Join(parts, ','), "]");
    case JObject(ms) =>
      var parts := seq(|ms|, i requires 0 <= i < |ms| => "\"" + ms[i].0 + "\":" + ToJson(ms[i].1));
      forall i | 0 <= i < |ms|
        ensures NoRawBreaks(parts[i])
      {
        ToJsonOneLine(ms[i].1);
        ConcatNoBreaks("\"", ms[i].0);
        ConcatNoBreaks("\"" + ms[i].0, "\":");
        ConcatNoBreaks("\"" + ms[i].0 + "\":", ToJson(ms[i].1));
      }
      JoinNoBreaks(parts);
      ConcatNoBreaks("{", Join(parts, ','));
      ConcatNoBreaks("{" + Join(parts, ','), "}");
  }

  function Keys(ms: seq<(string, Json)>): (ks: seq<string>)
    ensures |ks| == |ms|
  {
    seq(|ms|, i requires 0 <= i < |ms| => ms[i].0)
  }

  /** The value stored under `key`, as `Map.get` would find it. */
  function LookupIn(ms: seq<(string, Json)>, key: string): Option<Json> {
    if |ms| == 0 then None
    else if ms[0].0 == key then Some(ms[0].1)
    else LookupIn(ms[1..], key)
  }

  function Lookup(j: Json, key: string): Option<Json> {
    if j.JObject? then LookupIn(j.members, key) else None
  }

  predicate DistinctKeys(ms: seq<(string, Json)>) {
    forall i, j :: 0 <= i < j < |ms| ==> ms[i].0 != ms[j].0
  }

  lemma {:induction false} LookupAt(ms: seq<(string, Json)>, i: nat)
    requires DistinctKeys(ms) && i < |ms|
    ensures LookupIn(ms, ms[i].0) == Some(ms[i].1)
  {
    if i > 0 {
      assert ms[0].0 != ms[i].0;
      assert ms[1..][i - 1] == ms[i];
      LookupAt(ms[1..], i - 1);
    }
  }

  /** A field placed after a prefix is found under its key. */
  lemma LookupAfter(h: seq<(string, Json)>, body: seq<(string, Json)>, i: nat)
    requires DistinctKeys(h + body) && i < |body|
    ensures LookupIn(h + body, body[i].0) == Some(body[i].1)
  {
    assert (h + body)[|h| + i] == body[i];
    LookupAt(h + body, |h| + i);
  }

  lemma {:induction false} LookupMissing(ms: seq<(string, Json)>, key: string)
    requires forall i :: 0 <= i < |ms| ==> ms[i].0 != key
    ensures LookupIn(ms, key) == None
  {
    if |ms| > 0 {
      assert forall i :: 0 <= i < |ms| - 1 ==> ms[1..][i] == ms[i + 1];
      LookupMissing(ms[1..], key);
    }
  }

  // ---------------------------------------------------------------------
  // Records
  // ---------------------------------------------------------------------

  /** The keys every record starts with: `timestamp`, `iteration` when an
      iteration is set, then `type`. */
  function Header(ts: string, iteration: Option<int>, kind: string): seq<(string, Json)> {
    [("timestamp", JString(ts))]
      + (if iteration.Some? then [("iteration", JInt(iteration.value))] else [])
      + [("type", JString(kind))]
  }

  predicate NotHeaderKey(k: string) {
    k != "timestamp" && k != "iteration" && k != "type"
  }

  /** The fields of a record's own kind: distinct keys, none of them a
      header key. */
  predicate GoodBody(body: seq<(string, Json)>) {
    && DistinctKeys(body)
    && forall i :: 0 <= i < |body| ==> NotHeaderKey(body[i].0)
  }

  lemma HeaderKeys(ts: string, iteration: Option<int>, kind: string, body: seq<(string, Json)>)
    requires GoodBody(body)
    ensures DistinctKeys(Header(ts, iteration, kind) + body)
    ensures Keys(Header(ts, iteration, kind) + body)
      == ["timestamp"] + (if iteration.Some? then ["iteration"] else []) + ["type"] + Keys(body)
  {
    var h := Header(ts, iteration, kind);
    var ms := h + body;
    assert forall i :: 0 <= i < |h| ==> !NotHeaderKey(h[i].0);
    forall i, j | 0 <= i < j < |ms|
      ensures ms[i].0 != ms[j].0
    {
      if j < |h| {
      } else if i < |h| {
        assert ms[j] == body[j - |h|];
        assert NotHeaderKey(body[j - |h|].0);
      } else {
        assert ms[i] == body[i - |h|] && ms[j] == body[j - |h|];
      }
    }
    assert Keys(ms) == Keys(h) + Keys(body);
  }

  lemma HeaderLookups(ts: string, iteration: Option<int>, kind: string, body: seq<(string, Json)>)
    requires GoodBody(body)
    ensures LookupIn(Header(ts, iteration, kind) + body, "timestamp") == Some(JString(ts))
    ensures LookupIn(Header(ts, iteration, kind) + body, "iteration")
      == (if iteration.Some? then Some(JInt(iteration.value)) else None)
    ensures LookupIn(Header(ts, iteration, kind) + body, "type") == Some(JString(kind))
  {
    var h := Header(ts, iteration, kind);
    var ms := h + body;
    assert DistinctKeys(ms) by {
      HeaderKeys(ts, iteration, kind, body);
    }
    LookupAt(ms, 0);
    LookupAt(ms, 1);
    if iteration.Some? {
      LookupAt(ms, 2);
    } else {
      forall i | 0 <= i < |ms|
        ensures ms[i].0 != "iteration"
      {
        if i >= |h| {
          assert ms[i] == body[i - |h|];
          assert NotHeaderKey(body[i - |h|].0);
        }
      }
      LookupMissing(ms, "iteration");
    }
  }

  lemma BodyLookups(ts: string, iteration: Option<int>, kind: string, body: seq<(string, Json)>)
    requires GoodBody(body)
    ensures forall i :: 0 <= i < |body| ==> LookupIn(Header(ts, iteration, kind) + body, body[i].0) == Some(body[i].1)
  {
    var h := Header(ts, iteration, kind);
    var ms := h + body;
    assert DistinctKeys(ms) by {
      HeaderKeys(ts, iteration, kind, body);
    }
    forall i | 0 <= i < |body|
      ensures LookupIn(ms, body[i].0) == Some(body[i].1)
    {
      LookupAfter(h, body, i);
    }
  }

  /** A record is a header followed by its kind's own fields: the keys are
      distinct, the header keys come first in their fixed order, the header
      values are found under their keys and so is every body field. */
  lemma HeaderFields(ts: string, iteration: Option<int>, kind: string, body: seq<(string, Json)>)
    requires GoodBody(body)
    ensures DistinctKeys(Header(ts, iteration, kind) + body)
    ensures Keys(Header(ts, iteration, kind) + body)
      == ["timestamp"] + (if iteration.Some? then ["iteration"] else []) + ["type"] + Keys(body)
    ensures LookupIn(Header(ts, iteration, kind) + body, "timestamp") == Some(JString(ts))
    ensures LookupIn(Header(ts, iteration, kind) + body, "iteration")
      == (if iteration.Some? then Some(JInt(iteration.value)) else None)
    ensures LookupIn(Header(ts, iteration, kind) + body, "type") == Some(JString(kind))
    ensures forall i :: 0 <= i < |body| ==> LookupIn(Header(ts, iteration, kind) + body, body[i].0) == Some(body[i].1)
  {
    HeaderKeys(ts, iteration, kind, body);
    HeaderLookups(ts, iteration, kind, body);
    BodyLookups(ts, iteration, kind, body);
  }

  function ProtocolBody(direction: Direction, pdu: Pdu): seq<(string, Json)> {
    [("direction", JString(DirectionName(direction)))]
      + (if pdu.functionCode != -1 then [("function_code", JInt(pdu.functionCode))] else [])
      + [("pdu", JString(pdu.encoded))]
  }

  function ProtocolRecord(ts: string, iteration: Option<int>, direction: Direction, pdu: Pdu): Json {
    JObject(Header(ts, iteration, "protocol") + ProtocolBody(direction, pdu))
  }

  /** A protocol record's keys, in order and distinct: `function_code` is
      present exactly when the function code is not -1. */
  lemma ProtocolKeys(ts: string, iteration: Option<int>, direction: Direction, pdu: Pdu)
    ensures DistinctKeys(ProtocolRecord(ts, iteration, direction, pdu).members)
    ensures Keys(ProtocolRecord(ts, iteration, direction, pdu).members)
      == ["timestamp"] + (if iteration.Some? then ["iteration"] else []) + ["type", "direction"]
        + (if pdu.functionCode != -1 then ["function_code"] else []) + ["pdu"]
  {
    var body := ProtocolBody(direction, pdu);
    assert GoodBody(body);
    HeaderKeys(ts, iteration, "protocol", body);
  }

  /** A protocol record's values: the kind, the function code exactly when
      it is not -1, the encoded PDU and the lower-case direction. */
  lemma ProtocolFields(ts: string, iteration: Option<int>, direction: Direction, pdu: Pdu)
    ensures Lookup(ProtocolRecord(ts, iteration, direction, pdu), "type") == Some(JString("protocol"))
    ensures Lookup(ProtocolRecord(ts, iteration, direction, pdu), "function_code")
      == (if pdu.functionCode == -1 then None else Some(JInt(pdu.functionCode)))
    ensures Lookup(ProtocolRecord(ts, iteration, direction, pdu), "pdu") == Some(JString(pdu.encoded))
    ensures Lookup(ProtocolRecord(ts, iteration, direction, pdu), "direction")
      == Some(JString(if direction == Sent then "sent" else "received"))
  {
    var body := ProtocolBody(direction, pdu);
    var ms := Header(ts, iteration, "protocol") + body;
    assert GoodBody(body);
    HeaderLookups(ts, iteration, "protocol", body);
    BodyLookups(ts, iteration, "protocol", body);
    assert body[0].0 == "direction";
    assert body[|body| - 1].0 == "pdu";
    if pdu.functionCode != -1 {
      assert body[1].0 == "function_code";
    } else {
      ProtocolKeys(ts, iteration, direction, pdu);
      forall i | 0 <= i < |ms|
        ensures ms[i].0 != "function_code"
      {
        assert Keys(ms)[i] == ms[i].0;
      }
      LookupMissing(ms, "function_code");
    }
  }

  function MessageRecord(ts: string, iteration: Option<int>, t: OutputType, message: string): Json {
    JObject(Header(ts, iteration, TypeName(t)) + [("message", JString(message))])
  }

  lemma MessageFields(ts: string, iteration: Option<int>, t: OutputType, message: string)
    ensures DistinctKeys(MessageRecord(ts, iteration, t, message).members)
    ensures Keys(MessageRecord(ts, iteration, t, message).members)
      == ["timestamp"] + (if iteration.Some? then ["iteration"] else []) + ["type", "message"]
    ensures Lookup(MessageRecord(ts, iteration, t, message), "message") == Some(JString(message))
    ensures Lookup(MessageRecord(ts, iteration, t, message), "type") == Some(JString(TypeName(t)))
  {
    var body := [("message", JString(message))];
    HeaderFields(ts, iteration, TypeName(t), body);
    assert body[0].0 == "message";
  }

  /** `b & 0xFF` for each byte, in order. */
  function ByteList(bytes: seq<bv8>): seq<Json> {
    seq(|bytes|, i requires 0 <= i < |bytes| => JInt(bytes[i] as int))
  }

  /** Reading a `data` array back into bytes. */
  function DecodeBytes(items: seq<Json>): Option<seq<bv8>> {
    if |items| == 0 then Some([])
    else if items[0].JInt? && 0 <= items[0].n < 256 then
      match DecodeBytes(items[1..])
      case Some(rest) => Some([items[0].n as bv8] + rest)
      case None => None
    else None
  }

  function RegisterBody(registers: seq<bv8>, startAddress: int): seq<(string, Json)> {
    [("start_address", JInt(startAddress)), ("quantity", JInt(|registers| / 2)), ("data", JArray(ByteList(registers)))]
  }

  function RegisterTableRecord(ts: string, iteration: Option<int>, registers: seq<bv8>, startAddress: int): Json {
    JObject(Header(ts, iteration, "register_table") + RegisterBody(registers, startAddress))
  }

  lemma {:induction false} DecodeByteList(bytes: seq<bv8>)
    ensures DecodeBytes(ByteList(bytes)) == Some(bytes)
  {
    if |bytes| > 0 {
      assert ByteList(bytes)[1..] == ByteList(bytes[1..]);
      DecodeByteList(bytes[1..]);
      assert bytes == [bytes[0]] + bytes[1..];
    }
  }

  /** A register table record: `quantity` is half the byte count and
      `data` decodes back to exactly the register bytes, in order. */
  lemma RegisterTableKeys(ts: string, iteration: Option<int>, registers: seq<bv8>, startAddress: int)
    ensures DistinctKeys(RegisterTableRecord(ts, iteration, registers, startAddress).members)
    ensures Keys(RegisterTableRecord(ts, iteration, registers, startAddress).members)
      == ["timestamp"] + (if iteration.Some? then ["iteration"] else []) + ["type", "start_address", "quantity", "data"]
  {
    var body := RegisterBody(registers, startAddress);
    assert GoodBody(body);
    HeaderKeys(ts, iteration, "register_table", body);
  }

  lemma RegisterTableFields(ts: string, iteration: Option<int>, registers: seq<bv8>, startAddress: int)
    ensures Lookup(RegisterTableRecord(ts, iteration, registers, startAddress), "quantity") == Some(JInt(|registers| / 2))
    ensures Lookup(RegisterTableRecord(ts, iteration, registers, startAddress), "start_address") == Some(JInt(startAddress))
    ensures var data := Lookup(RegisterTableRecord(ts, iteration, registers, startAddress), "data");
      data.Some? && data.value.JArray? && DecodeBytes(data.value.items) == Some(registers)
  {
    var body := RegisterBody(registers, startAddress);
    assert GoodBody(body);
    BodyLookups(ts, iteration, "register_table", body);
    assert body[0].0 == "start_address" && body[1].0 == "quantity" && body[2].0 == "data";
    DecodeByteList(registers);
  }

  function BitList(bits: seq<bool>): seq<Json> {
    seq(|bits|, i requires 0 <= i < |bits| => JBool(bits[i]))
  }

  function CoilBody(coilBytes: seq<bv8>, startAddress: int, quantity: int): seq<(string, Json)>
    requires quantity <= 8 * |coilBytes|
  {
    [("start_address", JInt(startAddress)), ("quantity", JInt(quantity)),
     ("data", JArray(BitList(UnpackCoils(coilBytes, if quantity < 0 then 0 else quantity))))]
  }

  function CoilTableRecord(ts: string, iteration: Option<int>, coilBytes: seq<bv8>, startAddress: int, quantity: int): Json
    requires quantity <= 8 * |coilBytes|
  {
    JObject(Header(ts, iteration, "coil_table") + CoilBody(coilBytes, startAddress, quantity))
  }

  /** A coil table record: `data` holds exactly `quantity` booleans (none
      for a negative quantity), the i-th being bit `i % 8` of byte `i / 8`. */
  lemma CoilTableKeys(ts: string, iteration: Option<int>, coilBytes: seq<bv8>, startAddress: int, quantity: int)
    requires quantity <= 8 * |coilBytes|
    ensures DistinctKeys(CoilTableRecord(ts, iteration, coilBytes, startAddress, quantity).members)
    ensures Keys(CoilTableRecord(ts, iteration, coilBytes, startAddress, quantity).members)
      == ["timestamp"] + (if iteration.Some? then ["iteration"] else []) + ["type", "start_address", "quantity", "data"]
  {
    var body := CoilBody(coilBytes, startAddress, quantity);
    assert GoodBody(body);
    HeaderKeys(ts, iteration, "coil_table", body);
  }

  lemma CoilTableFields(ts: string, iteration: Option<int>, coilBytes: seq<bv8>, startAddress: int, quantity: int)
    requires quantity <= 8 * |coilBytes|
    ensures Lookup(CoilTableRecord(ts, iteration, coilBytes, startAddress, quantity), "quantity") == Some(JInt(quantity))
    ensures var data := Lookup(CoilTableRecord(ts, iteration, coilBytes, startAddress, quantity), "data");
      && data.Some? && data.value.JArray?
      && |data.value.items| == (if quantity < 0 then 0 else quantity)
      && forall i :: 0 <= i < |data.value.items| ==> data.value.items[i] == JBool(coilBytes[i / 8] & ((1 as bv8) << (i % 8)) != 0)
  {
    var body := CoilBody(coilBytes, startAddress, quantity);
    assert GoodBody(body);
    BodyLookups(ts, iteration, "coil_table", body);
    assert body[0].0 == "start_address" && body[1].0 == "quantity" && body[2].0 == "data";
  }

  /** One entry of the `results` array of a scan record. */
  function ScanEntry(address: int, readings: seq<Reading>): Json {
    JObject([
      ("address", JInt(address)),
      ("values", JArray(seq(|readings|, i requires 0 <= i < |readings| =>
        JArray([JInt(readings[i].hi as int), JInt(readings[i].lo as int)])))),
      ("identical", JBool(AllSame(readings)))])
  }

  /** One entry per distinct observed address, ascending. */
  function ScanEntries(obs: seq<Observation>): seq<Json> {
    var addresses := Ascending(obs);
    seq(|addresses|, i requires 0 <= i < |addresses| => ScanEntry(addresses[i], ReadingsAt(obs, addresses[i])))
  }

  function ScanRecord(ts: string, iteration: Option<int>, entries: seq<Json>): Json {
    JObject(Header(ts, iteration, "scan_results") + [("results", JArray(entries))])
  }

  /** The lines `formatScanResults` prints: none for a missing or empty
      result list or one whose windows hold no registers, else one record. */
  function ScanLines(results: Option<seq<ScanResult>>, ts: string, iteration: Option<int>): seq<string>
    requires results.Some? ==> EvenLengths(results.value)
  {
    if results.None? || |results.value| == 0 then []
    else if |Observations(results.value)| == 0 then []
    else [ToJson(ScanRecord(ts, iteration, ScanEntries(Observations(results.value))))]
  }

  /** A scan record appears exactly when some window returned registers;
      its entries are listed by strictly ascending address, one for every
      observed address, each with all of that address's readings in
      window order and `identical` true iff they all equal the first. */
  lemma ScanRecordMeaning(results: seq<ScanResult>)
    requires EvenLengths(results)
    ensures |ScanLines(Some(results), "", None)| == 1
      <==> exists k :: 0 <= k < |results| && |results[k].registers| > 0
    ensures forall a :: a in Ascending(Observations(results)) <==> a in AddressesOf(Observations(results))
    ensures StrictlyIncreasing(Ascending(Observations(results)))
    ensures var addresses := Ascending(Observations(results));
      forall i :: 0 <= i < |addresses| ==>
        && ScanEntries(Observations(results))[i] == ScanEntry(addresses[i], ReadingsAt(Observations(results), addresses[i]))
        && |ReadingsAt(Observations(results), addresses[i])| >= 1
  {
    NoObservations(results);
    var obs := Observations(results);
    var addresses := Ascending(obs);
    forall i | 0 <= i < |addresses|
      ensures |ReadingsAt(obs, addresses[i])| >= 1
    {
      ReadingsAtMeaning(obs, addresses[i]);
    }
  }

  // ---------------------------------------------------------------------
  // The formatter object
  // ---------------------------------------------------------------------

  /** `JsonFormatter`: the only state is the iteration tag that the
      polling loop sets before each run. Each `Format*` method returns
      the lines it prints. */
  class JsonFormatter {
    var currentIteration: Option<int>

    constructor()
      ensures currentIteration == None
    {
      currentIteration := None;
    }

    method SetIteration(iteration: Option<int>)
      modifies this
      ensures currentIteration == iteration
    {
      currentIteration := iteration;
    }

    /** Quiet mode drops protocol records entirely. */
    method FormatProtocol(pdu: Pdu, direction: Direction, timestamp: Option<Instant>, now: Instant, options: OutputOptions)
      returns (lines: seq<string>)
      ensures lines == if options.quiet then []
        else [ToJson(ProtocolRecord(Effective(timestamp, now).iso, currentIteration, direction, pdu))]
    {
      if options.quiet {
        return [];
      }
      var record := JObject(Header(Effective(timestamp, now).iso, currentIteration, "protocol") + ProtocolBody(direction, pdu));
      lines := [ToJson(record)];
    }

    /** Quiet mode drops INFO messages only. */
    method FormatMessage(t: OutputType, message: string, now: Instant, options: OutputOptions)
      returns (lines: seq<string>)
      ensures lines == if options.quiet && t == Info then []
        else [ToJson(MessageRecord(now.iso, currentIteration, t, message))]
    {
      if options.quiet && t == Info {
        return [];
      }
      lines := [ToJson(MessageRecord(now.iso, currentIteration, t, message))];
    }

    method FormatRegisterTable(registers: seq<bv8>, startAddress: int, timestamp: Option<Instant>, now: Instant, options: OutputOptions)
      returns (lines: seq<string>)
      ensures lines == [ToJson(RegisterTableRecord(Effective(timestamp, now).iso, currentIteration, registers, startAddress))]
    {
      var bytes: seq<Json> := [];
      var i := 0;
      while i < |registers|
        invariant 0 <= i <= |registers|
        invariant bytes == ByteList(registers[..i])
      {
        bytes := bytes + [JInt(registers[i] as int)];
        i := i + 1;
      }
      assert registers[..i] == registers;
      var quantity := |registers| / 2;
      var body := [("start_address", JInt(startAddress)), ("quantity", JInt(quantity)), ("data", JArray(bytes))];
      lines := [ToJson(JObject(Header(Effective(timestamp, now).iso, currentIteration, "register_table") + body))];
    }

    /** The byte array must hold `quantity` coils (the source indexes past
        its end otherwise). */
    method FormatCoilTable(coilBytes: seq<bv8>, startAddress: int, quantity: int, timestamp: Option<Instant>, now: Instant, options: OutputOptions)
      returns (lines: seq<string>)
      requires quantity <= 8 * |coilBytes|
      ensures lines == [ToJson(CoilTableRecord(Effective(timestamp, now).iso, currentIteration, coilBytes, startAddress, quantity))]
    {
      var bits: seq<Json> := [];
      var i := 0;
      while i < quantity
        invariant 0 <= i <= (if quantity < 0 then 0 else quantity)
        invariant bits == BitList(UnpackCoils(coilBytes, i))
      {
        var byteIndex := i / 8;
        var bitIndex := i % 8;
        bits := bits + [JBool(coilBytes[byteIndex] & ((1 as bv8) << bitIndex) != 0)];
        i := i + 1;
      }
      var body := [("start_address", JInt(startAddress)), ("quantity", JInt(quantity)), ("data", JArray(bits))];
      lines := [ToJson(JObject(Header(Effective(timestamp, now).iso, currentIteration, "coil_table") + body))];
    }

    /** Every window must hold whole registers (the source indexes past the
        end of an odd-length window otherwise). */
    method FormatScanResults(results: Option<seq<ScanResult>>, now: Instant, options: OutputOptions)
      returns (lines: seq<string>)
      requires results.Some? ==> EvenLengths(results.value)
      ensures lines == ScanLines(results, now.iso, currentIteration)
    {
      if results.None? || |results.value| == 0 {
        return [];
      }
      var scanResultMap, keys := Aggregate(results.value);
      ghost var obs := Observations(results.value);
      if |scanResultMap| == 0 {
        assert |obs| == 0 by {
          NoneObserved(obs, scanResultMap);
        }
        return [];
      }
      assert |obs| > 0 by {
        SomeObserved(obs, scanResultMap);
      }
      var sortedAddresses := SortAddresses(keys);
      assert sortedAddresses == Ascending(obs) by {
        AscendingUnique(sortedAddresses, Ascending(obs));
      }
      var resultsList := BuildEntries(scanResultMap, sortedAddresses);
      assert resultsList == ScanEntries(obs) by {
        BuiltEntries(scanResultMap, obs, sortedAddresses, resultsList);
      }
      lines := [ToJson(JObject(Header(now.iso, currentIteration, "scan_results") + [("results", JArray(resultsList))]))];
    }
  }

  /** Entries built from the aggregated map over the ascending addresses
      are the record's entries. */
  lemma BuiltEntries(m: map<int, seq<Reading>>, obs: seq<Observation>, sorted: seq<int>, list: seq<Json>)
    requires sorted == Ascending(obs)
    requires forall a :: a in m ==> m[a] == ReadingsAt(obs, a)
    requires forall a :: a in sorted ==> a in m
    requires |list| == |sorted| && forall k :: 0 <= k < |sorted| ==> list[k] == ScanEntry(sorted[k], m[sorted[k]])
    ensures list == ScanEntries(obs)
  {
  }

  /** The `results` array: one entry per address of `sorted`, in that order. */
  method BuildEntries(m: map<int, seq<Reading>>, sorted: seq<int>) returns (list: seq<Json>)
    requires forall a :: a in sorted ==> a in m
    ensures |list| == |sorted|
    ensures forall k :: 0 <= k < |sorted| ==> list[k] == ScanEntry(sorted[k], m[sorted[k]])
  {
    list := [];
    var k := 0;
    while k < |sorted|
      invariant 0 <= k <= |sorted| && |list| == k
      invariant forall j :: 0 <= j < k ==> list[j] == ScanEntry(sorted[j], m[sorted[j]])
    {
      var address := sorted[k];
      var entries := m[address];
      var values := seq(|entries|, i requires 0 <= i < |entries| =>
        JArray([JInt(entries[i].hi as int), JInt(entries[i].lo as int)]));
      var identical := AreAllEqual(entries);
      var resultEntry := JObject([("address", JInt(address)), ("values", JArray(values)), ("identical", JBool(identical))]);
      list := list + [resultEntry];
      k := k + 1;
    }
  }
}
