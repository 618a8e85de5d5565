/**
 * The value codec: coil tokens (`true`/`1`/`on`, `false`/`0`/`off`),
 * register tokens (signed decimal or `0x`-prefixed hex) and hex tokens
 * (with or without `0x`). A failure carries the message of the
 * `IllegalArgumentException` the tool throws.
 */
module ValueParser {
  import opened Wrappers
  import opened JavaText

  function CoilValueError(value: string): string {
    "Invalid coil value: '" + value + "'. Use true/false, 1/0, or on/off"
  }

  function RegisterValueError(value: string): string {
    "Invalid value: '" + value + "'. Use decimal (e.g., 1234) or hex (e.g., 0x04D2)"
  }

  function HexValueError(value: string): string {
    "Invalid hex value: '" + value + "'. Use format: 0xFFFF or FFFF"
  }

  predicate IsTrueKeyword(s: string) {
    s == "true" || s == "1" || s == "on"
  }

  predicate IsFalseKeyword(s: string) {
    s == "false" || s == "0" || s == "off"
  }

  /** `parseCoilValue`: lower-case, trim, then match the six keywords. */
  function ParseCoilValue(value: string): (r: Result<bool, string>)
    ensures r == Ok(true) <==> IsTrueKeyword(Trim(Lower(value)))
    ensures r == Ok(false) <==> IsFalseKeyword(Trim(Lower(value)))
    ensures r.Err? <==> !IsTrueKeyword(Trim(Lower(value))) && !IsFalseKeyword(Trim(Lower(value)))
    ensures r.Err? ==> r.error == CoilValueError(value)
  {
    var normalized := Trim(Lower(value));
    if IsTrueKeyword(normalized) then Ok(true)
    else if IsFalseKeyword(normalized) then Ok(false)
    else Err(CoilValueError(value))
  }

  /** `parseRegisterValue`: trim; a case-insensitive `0x` prefix selects base
      16 for the rest, otherwise base 10. Either may carry a sign and the
      value is any 32-bit int: nothing clamps it to 16 bits. */
  function ParseRegisterValue(value: string): (r: Result<int, string>)
    ensures r.Ok? ==> IntMin <= r.value <= IntMax
    ensures r.Err? ==> r.error == RegisterValueError(value)
  {
    var normalized := Trim(value);
    var parsed :=
      if StartsWith(Lower(normalized), "0x") then ParseInt(normalized[2..], 16)
      else ParseInt(normalized, 10);
    if parsed.Some? then Ok(parsed.value) else Err(RegisterValueError(value))
  }

  /** `parseHexValue`: trim, drop one optional `0x`/`0X`, parse base 16. */
  function ParseHexValue(value: string): (r: Result<int, string>)
    ensures r.Ok? ==> IntMin <= r.value <= IntMax
    ensures r.Err? ==> r.error == HexValueError(value)
  {
    var normalized := Trim(value);
    var digits := if StartsWith(Lower(normalized), "0x") then normalized[2..] else normalized;
    var parsed := ParseInt(digits, 16);
    if parsed.Some? then Ok(parsed.value) else Err(HexValueError(value))
  }

  // ---------------------------------------------------------------------
  // Properties
  // ---------------------------------------------------------------------

  predicate AllTrimmable(s: string) {
    forall i :: 0 <= i < |s| ==> Trimmable(s[i])
  }

  lemma LowerKeepsTrimmable(s: string)
    requires AllTrimmable(s)
    ensures Lower(s) == s
  {
  }

  /** A coil keyword in any letter case, surrounded by any whitespace or
      control characters, parses to the keyword's value. */
  lemma CoilKeywordAnyCaseAnyPadding(pre: string, token: string, post: string)
    requires AllTrimmable(pre) && AllTrimmable(post)
    requires IsTrueKeyword(Lower(token)) || IsFalseKeyword(Lower(token))
    ensures ParseCoilValue(pre + token + post) == Ok(IsTrueKeyword(Lower(token)))
  {
    var k := Lower(token);
    LowerConcat(pre + token, post);
    LowerConcat(pre, token);
    LowerKeepsTrimmable(pre);
    LowerKeepsTrimmable(post);
    assert Lower(pre + token + post) == pre + k + post;
    TrimPadded(pre, k, post);
  }

  /** A token that is already trimmed and is no keyword in any case is
      rejected with the coil message. */
  lemma CoilRejectsNonKeyword(token: string)
    requires token == [] || (!Trimmable(token[0]) && !Trimmable(token[|token| - 1]))
    requires !IsTrueKeyword(Lower(token)) && !IsFalseKeyword(Lower(token))
    ensures ParseCoilValue(token) == Err(CoilValueError(token))
  {
    var k := Lower(token);
    assert k == [] || (!Trimmable(k[0]) && !Trimmable(k[|k| - 1]));
    TrimNoop(k);
  }

  /** `" 0 "` is accepted as false, as the test suite expects. */
  lemma CoilPaddedZero()
    ensures ParseCoilValue(" 0 ") == Ok(false)
  {
    CoilKeywordAnyCaseAnyPadding(" ", "0", " ");
    assert " " + "0" + " " == " 0 ";
  }

  /** `"On"` is accepted as true. */
  lemma CoilMixedCaseOn()
    ensures ParseCoilValue("On") == Ok(true)
  {
    CoilKeywordAnyCaseAnyPadding("", "On", "");
    assert "" + "On" + "" == "On";
  }

  /** `"yes"` is rejected. */
  lemma CoilRejectsYes()
    ensures ParseCoilValue("yes") == Err(CoilValueError("yes"))
  {
    assert Lower("yes") == "yes";
    CoilRejectsNonKeyword("yes");
  }

  /** `""` is rejected. */
  lemma CoilRejectsEmpty()
    ensures ParseCoilValue("") == Err(CoilValueError(""))
  {
    CoilRejectsNonKeyword("");
  }

  /** Leading zeros do not change the value of a digit string. */
  lemma {:induction false} LeadingZeroValue(ds: string, radix: nat)
    requires 2 <= radix <= 36 && AllDigits(ds, radix)
    ensures AllDigits("0" + ds, radix) && DigitsValue("0" + ds, radix) == DigitsValue(ds, radix)
    decreases |ds|
  {
    var z := "0" + ds;
    if |ds| > 0 {
      assert z[..|z| - 1] == "0" + ds[..|ds| - 1];
      LeadingZeroValue(ds[..|ds| - 1], radix);
    }
  }

  lemma {:induction false} ZeroPadValue(ds: string, width: nat, radix: nat)
    requires 2 <= radix <= 36 && AllDigits(ds, radix)
    ensures AllDigits(ZeroPad(ds, width), radix)
    ensures DigitsValue(ZeroPad(ds, width), radix) == DigitsValue(ds, radix)
    decreases width - |ds|
  {
    if |ds| < width {
      LeadingZeroValue(ds, radix);
      ZeroPadValue("0" + ds, width, radix);
    }
  }

  /** A digit string without sign is read by `Integer.parseInt` as its value
      when that value fits in an int. */
  lemma ParseUnsignedDigits(ds: string, radix: nat)
    requires 2 <= radix <= 36 && |ds| > 0 && AllDigits(ds, radix)
    requires DigitsValue(ds, radix) <= IntMax
    ensures ParseInt(ds, radix) == Some(DigitsValue(ds, radix))
  {
    assert 0 <= DigitValue(ds[0]);
  }

  /** A digit is never trimmable. */
  lemma DigitNotTrimmable(c: char)
    requires DigitValue(c) >= 0
    ensures !Trimmable(c)
  {
  }

  predicate TrimmedShape(s: string) {
    s == [] || (!Trimmable(s[0]) && !Trimmable(s[|s| - 1]))
  }

  /** How a token that `trim` leaves alone and that carries a `0x` prefix is
      read as a register value. */
  lemma RegisterOfPrefixed(v: string)
    requires Trim(v) == v && StartsWith(Lower(v), "0x")
    ensures ParseRegisterValue(v) ==
      if ParseInt(v[2..], 16).Some? then Ok(ParseInt(v[2..], 16).value) else Err(RegisterValueError(v))
  {
  }

  /** How a token that `trim` leaves alone and that has no `0x` prefix is
      read as a register value. */
  lemma RegisterOfBare(v: string)
    requires Trim(v) == v && !StartsWith(Lower(v), "0x")
    ensures ParseRegisterValue(v) ==
      if ParseInt(v, 10).Some? then Ok(ParseInt(v, 10).value) else Err(RegisterValueError(v))
  {
  }

  lemma HexOfPrefixed(v: string)
    requires Trim(v) == v && StartsWith(Lower(v), "0x")
    ensures ParseHexValue(v) ==
      if ParseInt(v[2..], 16).Some? then Ok(ParseInt(v[2..], 16).value) else Err(HexValueError(v))
  {
  }

  lemma HexOfBare(v: string)
    requires Trim(v) == v && !StartsWith(Lower(v), "0x")
    ensures ParseHexValue(v) ==
      if ParseInt(v, 16).Some? then Ok(ParseInt(v, 16).value) else Err(HexValueError(v))
  {
  }

  lemma PrefixedTrim(t: string, x: char)
    requires x == 'x' || x == 'X'
    requires TrimmedShape(t)
    ensures Trim(['0', x] + t) == ['0', x] + t
  {
    var h := ['0', x] + t;
    assert h[|h| - 1] == if t == [] then x else t[|t| - 1];
    TrimNoop(h);
  }

  lemma PrefixedLower(t: string, x: char)
    requires x == 'x' || x == 'X'
    ensures StartsWith(Lower(['0', x] + t), "0x")
  {
    assert Lower(['0', x] + t)[..2] == "0x";
  }

  lemma PrefixedRest(t: string, x: char)
    ensures (['0', x] + t)[2..] == t
  {
  }

  /** `0x` (either case) followed by the zero-padded hex digits of `n` parses
      to the register value `n`; e.g. `0x04D2` gives 1234. */
  lemma RegisterHexForm(n: nat, width: nat, x: char)
    requires n <= IntMax && (x == 'x' || x == 'X')
    ensures ParseRegisterValue(['0', x] + ZeroPad(ToDigits(n, 16), width)) == Ok(n)
  {
    var hex := ZeroPad(ToDigits(n, 16), width);
    DigitsRoundTrip(n, 16);
    ZeroPadValue(ToDigits(n, 16), width, 16);
    DigitNotTrimmable(hex[0]);
    DigitNotTrimmable(hex[|hex| - 1]);
    PrefixedTrim(hex, x);
    PrefixedLower(hex, x);
    PrefixedRest(hex, x);
    RegisterOfPrefixed(['0', x] + hex);
    ParseUnsignedDigits(hex, 16);
  }

  lemma DecimalStringShape(n: int)
    ensures TrimmedShape(IntToString(n))
    ensures !StartsWith(Lower(IntToString(n)), "0x")
  {
    var s := IntToString(n);
    var ds := ToDigits(if n < 0 then -n else n, 10);
    assert s[|s| - 1] == ds[|ds| - 1];
    DigitNotTrimmable(ds[|ds| - 1]);
    if n >= 0 {
      DigitNotTrimmable(ds[0]);
    }
    if |s| >= 2 {
      var c := if n < 0 then ds[0] else ds[1];
      assert s[1] == c;
      assert DigitValue(c) < 10;
      assert Lower(s)[1] == LowerChar(c);
    }
  }

  /** Every 32-bit int, negative ones included, is accepted in its decimal
      form unchanged: `1234` gives 1234, `-1` gives -1. */
  lemma RegisterDecimalRoundTrip(n: int)
    requires IntMin <= n <= IntMax
    ensures ParseRegisterValue(IntToString(n)) == Ok(n)
  {
    IntToStringRoundTrip(n);
    DecimalStringShape(n);
    TrimNoop(IntToString(n));
    RegisterOfBare(IntToString(n));
  }

  /** `0x` with no digits is rejected as a register value. */
  lemma RegisterRejectsBarePrefix()
    ensures ParseRegisterValue("0x") == Err(RegisterValueError("0x"))
  {
    PrefixedTrim("", 'x');
    PrefixedLower("", 'x');
    assert ['0', 'x'] + "" == "0x";
    RegisterOfPrefixed("0x");
  }

  /** Digits followed by letters are rejected. */
  lemma RegisterRejectsTrailingJunk()
    ensures ParseRegisterValue("123abc") == Err(RegisterValueError("123abc"))
  {
    TrimNoop("123abc");
    NotHexPrefixed("123abc");
    RegisterOfBare("123abc");
    TrailingJunkNotDecimal();
  }

  lemma TrailingJunkNotDecimal()
    ensures ParseInt("123abc", 10) == None
  {
    assert DigitValue("123abc"[3]) == 10;
  }

  /** A token whose second character is no `x` has no `0x` prefix. */
  lemma NotHexPrefixed(v: string)
    requires |v| >= 2 && v[1] != 'x' && v[1] != 'X'
    ensures !StartsWith(Lower(v), "0x")
  {
    assert Lower(v)[1] == LowerChar(v[1]);
  }

  /** Letters that are not hex digits after `0x` are rejected. */
  lemma RegisterRejectsNonHexDigits()
    ensures ParseRegisterValue("0xGGGG") == Err(RegisterValueError("0xGGGG"))
  {
    TrimNoop("GGGG");
    PrefixedTrim("GGGG", 'x');
    PrefixedLower("GGGG", 'x');
    PrefixedRest("GGGG", 'x');
    assert ['0', 'x'] + "GGGG" == "0xGGGG";
    RegisterOfPrefixed("0xGGGG");
    assert DigitValue("GGGG"[0]) == 16;
  }

  /** `"  "` trims to the empty token. */
  lemma BlankTrim()
    ensures Trim("  ") == ""
  {
    TrimLeftPadded("  ", "");
    assert "  " + "" == "  ";
  }

  /** Blank tokens are rejected as register values: `""` and `"  "`. */
  lemma RegisterRejectsBlank()
    ensures ParseRegisterValue("") == Err(RegisterValueError(""))
    ensures ParseRegisterValue("  ") == Err(RegisterValueError("  "))
  {
    BlankTrim();
    TrimNoop("");
  }

  /** Letters that are no decimal digits are rejected: `"abc"`. */
  lemma RegisterRejectsLetters()
    ensures ParseRegisterValue("abc") == Err(RegisterValueError("abc"))
  {
    TrimNoop("abc");
    NotHexPrefixed("abc");
    RegisterOfBare("abc");
    assert DigitValue("abc"[0]) == 10;
  }

  /** An `x` without the leading zero is no prefix: `"x123"` is rejected. */
  lemma RegisterRejectsLoneX()
    ensures ParseRegisterValue("x123") == Err(RegisterValueError("x123"))
  {
    TrimNoop("x123");
    assert Lower("x123")[0] == 'x';
    RegisterOfBare("x123");
    assert DigitValue("x123"[0]) > 10;
  }

  /** Blank tokens are rejected as hex values: `""` and `"  "`. */
  lemma HexRejectsBlank()
    ensures ParseHexValue("") == Err(HexValueError(""))
    ensures ParseHexValue("  ") == Err(HexValueError("  "))
  {
    BlankTrim();
    TrimNoop("");
  }

  /** `0x` with no digits is rejected as a hex value. */
  lemma HexRejectsBarePrefix()
    ensures ParseHexValue("0x") == Err(HexValueError("0x"))
  {
    PrefixedTrim("", 'x');
    PrefixedLower("", 'x');
    assert ['0', 'x'] + "" == "0x";
    HexOfPrefixed("0x");
  }

  /** Letters that are no hex digits are rejected, with or without the
      prefix: `"GGGG"` and `"0xGGGG"`. */
  lemma HexRejectsNonHexDigits()
    ensures ParseHexValue("GGGG") == Err(HexValueError("GGGG"))
    ensures ParseHexValue("0xGGGG") == Err(HexValueError("0xGGGG"))
  {
    TrimNoop("GGGG");
    NotHexPrefixed("GGGG");
    HexOfBare("GGGG");
    assert DigitValue("GGGG"[0]) == 16;
    PrefixedTrim("GGGG", 'x');
    PrefixedLower("GGGG", 'x');
    PrefixedRest("GGGG", 'x');
    assert ['0', 'x'] + "GGGG" == "0xGGGG";
    HexOfPrefixed("0xGGGG");
  }

  /** `"xyz"` is rejected as a hex value. */
  lemma HexRejectsLetters()
    ensures ParseHexValue("xyz") == Err(HexValueError("xyz"))
  {
    TrimNoop("xyz");
    assert Lower("xyz")[0] == 'x';
    HexOfBare("xyz");
    assert DigitValue("xyz"[0]) > 16;
  }

  /** With or without the `0x`/`0X` prefix a trimmed hex token parses the
      same. */
  lemma HexPrefixOptional(t: string, x: char)
    requires x == 'x' || x == 'X'
    requires TrimmedShape(t)
    requires !StartsWith(Lower(t), "0x")
    ensures ParseHexValue(['0', x] + t).Ok? <==> ParseHexValue(t).Ok?
    ensures ParseHexValue(t).Ok? ==> ParseHexValue(['0', x] + t).value == ParseHexValue(t).value
  {
    PrefixedTrim(t, x);
    PrefixedLower(t, x);
    PrefixedRest(t, x);
    TrimNoop(t);
    HexOfPrefixed(['0', x] + t);
    HexOfBare(t);
  }

  /** The code accepts a sign in a hex token: `-FF` parses to -255. */
  lemma HexAcceptsSign()
    ensures ParseHexValue("-FF") == Ok(-255)
  {
    TrimNoop("-FF");
    assert Lower("-FF")[0] == '-';
    HexOfBare("-FF");
    assert "-FF"[1..] == "FF";
    assert "FF"[..1] == "F";
    assert DigitsValue("FF", 16) == 255;
  }

  /** `FFFF` gives 65535. */
  lemma HexFullWord()
    ensures ParseHexValue("FFFF") == Ok(65535)
  {
    TrimNoop("FFFF");
    assert Lower("FFFF")[0] == 'f';
    HexOfBare("FFFF");
    FullWordDigits();
    ParseUnsignedDigits("FFFF", 16);
  }

  lemma FullWordDigits()
    ensures AllDigits("FFFF", 16) && DigitsValue("FFFF", 16) == 65535
  {
    assert "FFFF"[..3] == "FFF" && "FFF"[..2] == "FF" && "FF"[..1] == "F";
  }

  /** `0xFFFF` gives 65535 too. */
  lemma HexFullWordPrefixed()
    ensures ParseHexValue("0xFFFF") == Ok(65535)
  {
    assert ParseHexValue("FFFF") == Ok(65535) by { HexFullWord(); }
    assert !StartsWith(Lower("FFFF"), "0x") by { NotHexPrefixed("FFFF"); }
    assert TrimmedShape("FFFF") by { DigitNotTrimmable('F'); }
    assert ['0', 'x'] + "FFFF" == "0xFFFF";
    HexPrefixOptional("FFFF", 'x');
  }

  /** Only the trimmed token decides whether a register value parses and
      what it is; the raw input is used only for the error message. */
  lemma RegisterOnTrimmed(v: string)
    ensures ParseRegisterValue(v).Ok? <==> ParseRegisterValue(Trim(v)).Ok?
    ensures ParseRegisterValue(v).Ok? ==> ParseRegisterValue(v).value == ParseRegisterValue(Trim(v)).value
  {
    TrimIdempotent(v);
  }

  /** The same holds for hex tokens. */
  lemma HexOnTrimmed(v: string)
    ensures ParseHexValue(v).Ok? <==> ParseHexValue(Trim(v)).Ok?
    ensures ParseHexValue(v).Ok? ==> ParseHexValue(v).value == ParseHexValue(Trim(v)).value
  {
    TrimIdempotent(v);
  }

  /** Whitespace and control characters around a register token change
      neither whether it parses nor its value. */
  lemma RegisterPaddingIgnored(pre: string, t: string, post: string)
    requires AllTrimmable(pre) && AllTrimmable(post) && t != [] && TrimmedShape(t)
    ensures ParseRegisterValue(pre + t + post).Ok? <==> ParseRegisterValue(t).Ok?
    ensures ParseRegisterValue(pre + t + post).Ok? ==> ParseRegisterValue(pre + t + post).value == ParseRegisterValue(t).value
  {
    var w := pre + t + post;
    assert Trim(w) == t by { TrimPadded(pre, t, post); }
    RegisterOnTrimmed(w);
  }

  /** The same holds for hex tokens. */
  lemma HexPaddingIgnored(pre: string, t: string, post: string)
    requires AllTrimmable(pre) && AllTrimmable(post) && t != [] && TrimmedShape(t)
    ensures ParseHexValue(pre + t + post).Ok? <==> ParseHexValue(t).Ok?
    ensures ParseHexValue(pre + t + post).Ok? ==> ParseHexValue(pre + t + post).value == ParseHexValue(t).value
  {
    var w := pre + t + post;
    assert Trim(w) == t by { TrimPadded(pre, t, post); }
    HexOnTrimmed(w);
  }

  /** On a `0x`-prefixed token the register reader and the hex reader
      agree: both succeed or both fail, with the same value. */
  lemma PrefixedRegisterIsHex(v: string)
    requires StartsWith(Lower(Trim(v)), "0x")
    ensures ParseRegisterValue(v).Ok? <==> ParseHexValue(v).Ok?
    ensures ParseRegisterValue(v).Ok? ==> ParseRegisterValue(v).value == ParseHexValue(v).value
  {
  }
}
