/**
 * The parts of the Java platform's string and integer semantics that the
 * command-line tool relies on: `String.trim`, `String.isBlank`,
 * `toLowerCase`/`toUpperCase` as far as the tool's comparisons can observe
 * them, `startsWith`, `contains`, `indexOf`, `String.split(",")`,
 * `Integer.parseInt`, `Integer.toString`, `%0NX` hex formatting, the
 * `%s`, `%d` and `%%` conversions of `String.format` and the truncating
 * integer division of `/`.
 */
module JavaText {
  import opened Wrappers

  // ---------------------------------------------------------------------
  // Whitespace, trimming and case
  // ---------------------------------------------------------------------

  /** `Character.isWhitespace`: the ASCII controls 9-13 and 28-31, the space,
      and the Unicode space, line and paragraph separators other than the
      non-breaking ones (U+00A0, U+2007, U+202F). */
  predicate IsWhitespace(c: char) {
    var n := c as int;
    (9 <= n <= 13) || (28 <= n <= 32) || n == 0x1680
    || (0x2000 <= n <= 0x2006) || (0x2008 <= n <= 0x200A)
    || n == 0x2028 || n == 0x2029 || n == 0x205F || n == 0x3000
  }

  /** `String.isBlank`: empty, or whitespace only. */
  predicate IsBlank(s: string) {
    forall i :: 0 <= i < |s| ==> IsWhitespace(s[i])
  }

  /** The characters `String.trim` removes: every code point up to U+0020. */
  predicate Trimmable(c: char) {
    c as int <= 0x20
  }

  function TrimLeft(s: string): (r: string)
    ensures |r| <= |s| && r == s[|s| - |r|..]
    ensures r == [] || !Trimmable(r[0])
    ensures forall i :: 0 <= i < |s| - |r| ==> Trimmable(s[i])
  {
    if |s| > 0 && Trimmable(s[0]) then TrimLeft(s[1..]) else s
  }

  function TrimRight(s: string): (r: string)
    ensures |r| <= |s| && r == s[..|r|]
    ensures r == [] || !Trimmable(r[|r| - 1])
    ensures forall i :: |r| <= i < |s| ==> Trimmable(s[i])
  {
    if |s| > 0 && Trimmable(s[|s| - 1]) then TrimRight(s[..|s| - 1]) else s
  }

  /** `String.trim`: drops leading and trailing characters up to U+0020. */
  function Trim(s: string): (r: string)
    ensures |r| <= |s|
    ensures r == [] || (!Trimmable(r[0]) && !Trimmable(r[|r| - 1]))
  {
    TrimRight(TrimLeft(s))
  }

  lemma TrimLeftNoop(s: string)
    requires s == [] || !Trimmable(s[0])
    ensures TrimLeft(s) == s
  {
  }

  lemma TrimRightNoop(s: string)
    requires s == [] || !Trimmable(s[|s| - 1])
    ensures TrimRight(s) == s
  {
  }

  lemma TrimNoop(s: string)
    requires s == [] || (!Trimmable(s[0]) && !Trimmable(s[|s| - 1]))
    ensures Trim(s) == s
  {
    TrimLeftNoop(s);
    TrimRightNoop(s);
  }

  /** Trimming a trimmed string changes nothing. */
  lemma TrimIdempotent(s: string)
    ensures Trim(Trim(s)) == Trim(s)
  {
    var t := Trim(s);
    TrimLeftNoop(t);
    TrimRightNoop(t);
  }

  /** Surrounding a string that has no trimmable ends with trimmable
      characters does not change what `trim` returns. */
  lemma TrimPadded(pre: string, s: string, post: string)
    requires forall i :: 0 <= i < |pre| ==> Trimmable(pre[i])
    requires forall i :: 0 <= i < |post| ==> Trimmable(post[i])
    requires s != [] && !Trimmable(s[0]) && !Trimmable(s[|s| - 1])
    ensures Trim(pre + s + post) == s
  {
    TrimLeftPadded(pre, s + post);
    assert pre + s + post == pre + (s + post);
    TrimRightPadded(s, post);
  }

  lemma {:induction false} TrimLeftPadded(pre: string, s: string)
    requires forall i :: 0 <= i < |pre| ==> Trimmable(pre[i])
    requires s == [] || !Trimmable(s[0])
    ensures TrimLeft(pre + s) == s
  {
    if pre == [] {
      assert pre + s == s;
      TrimLeftNoop(s);
    } else {
      assert (pre + s)[1..] == pre[1..] + s;
      TrimLeftPadded(pre[1..], s);
    }
  }

  lemma {:induction false} TrimRightPadded(s: string, post: string)
    requires forall i :: 0 <= i < |post| ==> Trimmable(post[i])
    requires s == [] || !Trimmable(s[|s| - 1])
    ensures TrimRight(s + post) == s
  {
    if post == [] {
      assert s + post == s;
      TrimRightNoop(s);
    } else {
      var n := |post| - 1;
      assert (s + post)[..|s + post| - 1] == s + post[..n];
      TrimRightPadded(s, post[..n]);
    }
  }

  /** `Character.toLowerCase` restricted to ASCII. Each case-insensitive
      comparison the tool makes is against an ASCII keyword, and no other
      character lower-cases to an ASCII letter or colon or slash that such a
      keyword contains, so the restriction does not change any outcome. */
  function LowerChar(c: char): char {
    if 'A' <= c <= 'Z' then (c as int + 32) as char else c
  }

  function UpperChar(c: char): char {
    if 'a' <= c <= 'z' then (c as int - 32) as char else c
  }

  function Lower(s: string): (r: string)
    ensures |r| == |s|
    ensures forall i :: 0 <= i < |s| ==> r[i] == LowerChar(s[i])
  {
    seq(|s|, i requires 0 <= i < |s| => LowerChar(s[i]))
  }

  function Upper(s: string): (r: string)
    ensures |r| == |s|
    ensures forall i :: 0 <= i < |s| ==> r[i] == UpperChar(s[i])
  {
    seq(|s|, i requires 0 <= i < |s| => UpperChar(s[i]))
  }

  lemma LowerConcat(a: string, b: string)
    ensures Lower(a + b) == Lower(a) + Lower(b)
  {
  }

  // ---------------------------------------------------------------------
  // Searching
  // ---------------------------------------------------------------------

  predicate StartsWith(s: string, prefix: string) {
    |prefix| <= |s| && s[..|prefix|] == prefix
  }

  /** `String.contains`. */
  predicate Contains(s: string, part: string)
    decreases |s|
  {
    StartsWith(s, part) || (|s| > 0 && Contains(s[1..], part))
  }

  /** `String.indexOf(char)`: the first position of `c`, or -1. */
  function IndexOf(s: string, c: char): (r: int)
    ensures -1 <= r < |s|
    ensures r >= 0 ==> s[r] == c
    ensures forall j :: 0 <= j < |s| && (r < 0 || j < r) ==> s[j] != c
  {
    if |s| == 0 then -1
    else if s[0] == c then 0
    else var k := IndexOf(s[1..], c); if k < 0 then -1 else k + 1
  }

  /** `String.lastIndexOf(char)`: the last position of `c`, or -1. */
  function LastIndexOf(s: string, c: char): (r: int)
    ensures -1 <= r < |s|
    ensures r >= 0 ==> s[r] == c
    ensures forall j :: 0 <= j < |s| && r < j ==> s[j] != c
  {
    if |s| == 0 then -1
    else if s[|s| - 1] == c then |s| - 1
    else LastIndexOf(s[..|s| - 1], c)
  }

  /** The first `c` of `a + [c] + b` is the one after `a` when `a` has none. */
  lemma {:induction false} IndexOfAfter(a: string, c: char, b: string)
    requires c !in a
    ensures IndexOf(a + [c] + b, c) == |a|
  {
    if a != [] {
      assert (a + [c] + b)[1..] == a[1..] + [c] + b;
      IndexOfAfter(a[1..], c, b);
    }
  }

  /** The last `c` of `a + [c] + b` is the one after `a` when `b` has none. */
  lemma {:induction false} LastIndexOfBefore(a: string, c: char, b: string)
    requires c !in b
    ensures LastIndexOf(a + [c] + b, c) == |a|
  {
    if b != [] {
      var s := a + [c] + b;
      assert s[|s| - 1] == b[|b| - 1];
      assert s[..|s| - 1] == a + [c] + b[..|b| - 1];
      LastIndexOfBefore(a, c, b[..|b| - 1]);
    }
  }

  lemma IndexOfAbsent(s: string, c: char)
    requires c !in s
    ensures IndexOf(s, c) == -1 && LastIndexOf(s, c) == -1
  {
  }

  /** A string with a non-whitespace character stays non-blank inside any
      context. */
  lemma NotBlankInside(pre: string, s: string, post: string)
    requires !IsBlank(s)
    ensures !IsBlank(pre + s + post)
  {
    var i :| 0 <= i < |s| && !IsWhitespace(s[i]);
    assert (pre + s + post)[|pre| + i] == s[i];
  }

  // ---------------------------------------------------------------------
  // String.split with a one-character separator and limit 0
  // ---------------------------------------------------------------------

  /** Every field between separators, empty ones included. */
  function Fields(s: string, sep: char): (r: seq<string>)
    ensures |r| >= 1
    decreases |s|
  {
    var i := IndexOf(s, sep);
    if i < 0 then [s] else [s[..i]] + Fields(s[i + 1..], sep)
  }

  function DropTrailingEmpty(fs: seq<string>): (r: seq<string>)
    ensures |r| <= |fs| && r == fs[..|r|]
    ensures r == [] || r[|r| - 1] != ""
    ensures forall k :: |r| <= k < |fs| ==> fs[k] == ""
  {
    if |fs| > 0 && fs[|fs| - 1] == "" then DropTrailingEmpty(fs[..|fs| - 1]) else fs
  }

  /** `s.split(sep)`: a string without the separator is returned whole (so
      `""` splits into one empty field); otherwise the fields, with trailing
      empty fields removed. */
  function Split(s: string, sep: char): seq<string> {
    if IndexOf(s, sep) < 0 then [s] else DropTrailingEmpty(Fields(s, sep))
  }

  /** Joining the fields with the separator gives back the string. */
  lemma {:induction false} FieldsJoin(s: string, sep: char)
    ensures Join(Fields(s, sep), sep) == s
    decreases |s|
  {
    var i := IndexOf(s, sep);
    if i >= 0 {
      FieldsJoin(s[i + 1..], sep);
      assert s == s[..i] + [sep] + s[i + 1..];
    }
  }

  function Join(fs: seq<string>, sep: char): string {
    if |fs| == 0 then ""
    else if |fs| == 1 then fs[0]
    else fs[0] + [sep] + Join(fs[1..], sep)
  }

  // ---------------------------------------------------------------------
  // Integers: Integer.parseInt, Integer.toString, hex formatting, division
  // ---------------------------------------------------------------------

  const IntMin: int := -0x8000_0000
  const IntMax: int := 0x7FFF_FFFF

  /** `Character.digit` for ASCII characters: 0-9, then a-z and A-Z as 10-35;
      -1 for everything else. */
  function DigitValue(c: char): int {
    if '0' <= c <= '9' then c as int - '0' as int
    else if 'a' <= c <= 'z' then c as int - 'a' as int + 10
    else if 'A' <= c <= 'Z' then c as int - 'A' as int + 10
    else -1
  }

  predicate AllDigits(ds: string, radix: nat) {
    forall i :: 0 <= i < |ds| ==> 0 <= DigitValue(ds[i]) < radix
  }

  /** `Character.isDigit` restricted to ASCII. */
  predicate IsAsciiDigit(c: char) {
    '0' <= c <= '9'
  }

  function DigitsValue(ds: string, radix: nat): nat
    requires AllDigits(ds, radix)
  {
    if |ds| == 0 then 0
    else DigitsValue(ds[..|ds| - 1], radix) * radix + DigitValue(ds[|ds| - 1])
  }

  /** `Integer.parseInt(s, radix)`: an optional `+` or `-`, then at least one
      digit of the radix; the value must fit in a 32-bit signed int.
      `None` stands for `NumberFormatException`. */
  function ParseInt(s: string, radix: nat): (r: Option<int>)
    requires 2 <= radix <= 36
    ensures r.Some? ==> IntMin <= r.value <= IntMax
    ensures r.Some? ==> |s| > 0
  {
    if |s| == 0 then None
    else
      var signed := s[0] == '-' || s[0] == '+';
      var ds := if signed then s[1..] else s;
      if |ds| == 0 || !AllDigits(ds, radix) then None
      else
        var d: int := DigitsValue(ds, radix);
        var v := if s[0] == '-' then -d else d;
        if IntMin <= v <= IntMax then Some(v) else None
  }

  /** The message of the `NumberFormatException` that `Integer.parseInt`
      throws for `s`. */
  function NumberFormatMessage(s: string, radix: nat): string {
    "For input string: \"" + s + "\"" + (if radix == 10 then "" else " under radix " + IntToString(radix))
  }

  function DigitChar(d: nat): char
    requires d < 16
  {
    if d < 10 then ('0' as int + d) as char else ('A' as int + d - 10) as char
  }

  /** The digits of `n` in `radix` (10 or 16, upper-case), no leading zeros. */
  function ToDigits(n: nat, radix: nat): (r: string)
    requires radix == 10 || radix == 16
    ensures |r| >= 1
    ensures AllDigits(r, radix)
    ensures r[0] != '-' && r[0] != '+'
  {
    if n < radix then [DigitChar(n)]
    else ToDigits(n / radix, radix) + [DigitChar(n % radix)]
  }

  /** Reading back the digits of `n` gives `n`. */
  lemma {:induction false} DigitsRoundTrip(n: nat, radix: nat)
    requires radix == 10 || radix == 16
    ensures DigitsValue(ToDigits(n, radix), radix) == n
    decreases n
  {
    var ds := ToDigits(n, radix);
    if n < radix {
      DigitCharValue(n);
    } else {
      var q, d := n / radix, n % radix;
      DigitsRoundTrip(q, radix);
      assert ds == ToDigits(q, radix) + [DigitChar(d)];
      assert ds[..|ds| - 1] == ToDigits(q, radix);
      DigitCharValue(d);
      assert DigitsValue(ds, radix) == q * radix + d;
    }
  }

  lemma DigitCharValue(d: nat)
    requires d < 16
    ensures DigitValue(DigitChar(d)) == d
  {
  }

  /** `Integer.toString` (and `%d` in a locale with ASCII digits). */
  function IntToString(n: int): (r: string)
    ensures |r| >= 1
  {
    if n < 0 then "-" + ToDigits(-n, 10) else ToDigits(n, 10)
  }

  /** `Integer.parseInt(Integer.toString(n)) == n` for every 32-bit int. */
  lemma IntToStringRoundTrip(n: int)
    requires IntMin <= n <= IntMax
    ensures ParseInt(IntToString(n), 10) == Some(n)
  {
    var s := IntToString(n);
    if n < 0 {
      var ds := ToDigits(-n, 10);
      assert s == "-" + ds && s[0] == '-';
      assert s[1..] == ds;
      DigitsRoundTrip(-n, 10);
      assert DigitsValue(ds, 10) == -n;
    } else {
      var ds := ToDigits(n, 10);
      assert s == ds;
      DigitsRoundTrip(n, 10);
      assert DigitsValue(ds, 10) == n;
    }
  }

  function ZeroPad(s: string, width: nat): (r: string)
    ensures |r| == if |s| < width then width else |s|
    decreases width - |s|
  {
    if |s| < width then ZeroPad("0" + s, width) else s
  }

  /** `String.format("%0<width>X", v)` for an `int`: upper-case hex of the
      unsigned 32-bit value, left-padded with zeros. */
  function Hex(v: int, width: nat): string {
    ZeroPad(ToDigits(v % 0x1_0000_0000, 16), width)
  }

  /** Java's `/` on ints with a positive divisor: rounds toward zero. */
  function JavaDiv(a: int, b: int): (q: int)
    requires b > 0
    ensures a >= 0 ==> q == a / b
  {
    if a >= 0 then a / b else -((-a) / b)
  }

  /** `s.repeat(n)`. */
  function Repeat(s: string, n: nat): (r: string)
    ensures |r| == n * |s|
  {
    if n == 0 then "" else s + Repeat(s, n - 1)
  }

  // ---------------------------------------------------------------------
  // String.format with %s, %d and %%
  // ---------------------------------------------------------------------

  /** An argument of `String.format`: a string, an integer, or `null`. */
  datatype FormatArg = Str(s: string) | Dec(n: int) | Null

  /** The text a `%s` or `%d` conversion writes for `arg`: the string, the
      decimal integer, or `null`; `None` where Java throws
      `IllegalFormatConversionException` (`%d` of a string). */
  function ArgText(conversion: char, arg: FormatArg): (r: Option<string>)
    requires conversion == 's' || conversion == 'd'
    ensures r.None? <==> conversion == 'd' && arg.Str?
    ensures arg.Null? ==> r == Some("null")
    ensures arg.Dec? ==> r == Some(IntToString(arg.n))
  {
    match arg
    case Str(text) => if conversion == 's' then Some(text) else None
    case Dec(n) => Some(IntToString(n))
    case Null => Some("null")
  }

  /** `p` in front of a formatted text; no text stays no text. */
  function Prepend(p: string, r: Option<string>): (q: Option<string>)
    ensures q.Some? <==> r.Some?
    ensures r.Some? ==> |q.value| == |p| + |r.value| && q.value[..|p|] == p && q.value[|p|..] == r.value
  {
    if r.Some? then Some(p + r.value) else None
  }

  /** `String.format(format, args)` for the conversions `%s`, `%d` and
      `%%`: each `%s` or `%d` takes the next argument, `%%` writes `%`, and
      every other character is copied. `None` where Java throws: a missing
      argument, `%d` of a string, a lone `%` at the end, or any other
      conversion. Arguments left over are ignored. */
  function Format(format: string, args: seq<FormatArg>): (r: Option<string>)
    ensures '%' !in format ==> r == Some(format)
    decreases |format|
  {
    if |format| == 0 then Some("")
    else if format[0] != '%' then
      assert '%' !in format ==> '%' !in format[1..] && [format[0]] + format[1..] == format;
      Prepend([format[0]], Format(format[1..], args))
    else if |format| == 1 then None
    else if format[1] == '%' then Prepend("%", Format(format[2..], args))
    else if format[1] == 's' || format[1] == 'd' then
      if |args| == 0 then None
      else
        var text := ArgText(format[1], args[0]);
        if text.None? then None else Prepend(text.value, Format(format[2..], args[1..]))
    else None
  }

  /** A first character other than `%` is copied in front of the rest. */
  lemma FormatPlainHead(s: string, args: seq<FormatArg>)
    requires |s| > 0 && s[0] != '%'
    ensures Format(s, args) == Prepend([s[0]], Format(s[1..], args))
  {
  }

  /** Text without `%` is copied in front of whatever follows it. */
  lemma {:induction false} FormatPlainPrefix(p: string, rest: string, args: seq<FormatArg>)
    requires '%' !in p
    ensures Format(p + rest, args) == Prepend(p, Format(rest, args))
    decreases |p|
  {
    if |p| > 0 {
      var s := p + rest;
      assert s[0] == p[0] && s[1..] == p[1..] + rest;
      assert '%' !in p[1..];
      FormatPlainPrefix(p[1..], rest, args);
      FormatPlainHead(s, args);
      PrependPrepend([p[0]], p[1..], Format(rest, args));
      assert [p[0]] + p[1..] == p;
    } else {
      assert p + rest == rest;
      PrependPrepend(p, "", Format(rest, args));
      assert p + "" == "";
      assert Prepend("", Format(rest, args)) == Format(rest, args);
    }
  }

  /** A `%s` or `%d` conversion writes the text of the first argument and
      formats the rest with the remaining arguments; with no argument left
      it fails. */
  lemma FormatConversion(c: char, rest: string, args: seq<FormatArg>)
    requires c == 's' || c == 'd'
    ensures |args| == 0 ==> Format(['%', c] + rest, args) == None
    ensures |args| > 0 ==>
      Format(['%', c] + rest, args)
        == (if ArgText(c, args[0]).None? then None else Prepend(ArgText(c, args[0]).value, Format(rest, args[1..])))
  {
    assert (['%', c] + rest)[2..] == rest;
  }

  /** `String.format("%s", x)` is the text of `x`, `null` for `null`. */
  lemma FormatOneString(arg: FormatArg)
    ensures Format("%s", [arg]) == ArgText('s', arg)
    ensures arg.Str? ==> Format("%s", [arg]) == Some(arg.s)
    ensures arg.Null? ==> Format("%s", [arg]) == Some("null")
  {
    FormatConversion('s', "", [arg]);
    assert ['%', 's'] + "" == "%s";
    var t := ArgText('s', arg);
    assert t.value + "" == t.value;
  }

  /** `Prepend` twice is `Prepend` of the joined text. */
  lemma PrependPrepend(a: string, b: string, r: Option<string>)
    ensures Prepend(a, Prepend(b, r)) == Prepend(a + b, r)
  {
    if r.Some? {
      assert a + (b + r.value) == (a + b) + r.value;
    }
  }
}
