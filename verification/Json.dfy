/** The hand-written JSON parser: a cursor over a byte string. The specification reads the
    unread remainder of the text; the parser object moves an index over it. */
module Json {
  import opened Telemetry
  import opened Text

  /** A number that is not an `int64_t` keeps its lexeme in place of the `double` it denotes. */
  datatype Json =
    | Null
    | Bool(b: bool)
    | Int(i: int)
    | Double(lexeme: string)
    | Str(s: string)
    | Arr(items: seq<Json>)
    | Obj(values: map<string, Json>)

  /** What was read, and what is left to read. */
  type Reading<T> = Option<(T, string)>

  // ----- Tokens -----

  predicate IsWs(c: char) { c == ' ' || c == '\t' || c == '\r' || c == '\n' }

  function SkipWs(s: string): (r: string)
    ensures |r| <= |s|
    ensures r != "" ==> !IsWs(r[0])
  {
    if s != "" && IsWs(s[0]) then SkipWs(s[1..]) else s
  }

  function Consume(expected: char, s: string): (r: Option<string>)
    ensures r.Some? ==> |r.value| < |s|
  {
    var t := SkipWs(s);
    if t != "" && t[0] == expected then Some(t[1..]) else None
  }

  function ParseLiteral(literal: string, v: Json, s: string): (r: Reading<Json>)
    ensures r.Some? ==> |r.value.1| == |s| - |literal|
  {
    if literal <= s then Some((v, s[|literal|..])) else None
  }

  // ----- Strings -----

  function HexValue(c: char): Option<nat> {
    if '0' <= c <= '9' then Some(c as int - '0' as int)
    else if 'a' <= c <= 'f' then Some(10 + c as int - 'a' as int)
    else if 'A' <= c <= 'F' then Some(10 + c as int - 'A' as int)
    else None
  }

  predicate IsHex(c: char) { HexValue(c).Some? }

  function Hex(c: char): (n: nat)
    requires IsHex(c)
    ensures n < 16
  {
    HexValue(c).value
  }

  /** The value of four hexadecimal digits, most significant first. */
  function Hex4(s: string): (n: nat)
    requires |s| == 4 && IsHex(s[0]) && IsHex(s[1]) && IsHex(s[2]) && IsHex(s[3])
    ensures n < 0x10000
  {
    ((Hex(s[0]) * 16 + Hex(s[1])) * 16 + Hex(s[2])) * 16 + Hex(s[3])
  }

  predicate FourHex(s: string) {
    |s| == 4 && IsHex(s[0]) && IsHex(s[1]) && IsHex(s[2]) && IsHex(s[3])
  }

  function ParseHex4(s: string): (r: Reading<nat>)
    ensures r.Some? ==> |r.value.1| == |s| - 4 && r.value.0 < 0x10000
  {
    if |s| >= 4 && FourHex(s[..4]) then Some((Hex4(s[..4]), s[4..])) else None
  }

  predicate HighSurrogate(cp: nat) { 0xD800 <= cp <= 0xDBFF }

  predicate LowSurrogate(cp: nat) { 0xDC00 <= cp <= 0xDFFF }

  /** Unicode scalar values. */
  predicate Scalar(cp: nat) { cp < 0xD800 || 0xE000 <= cp < 0x110000 }

  function Byte(n: nat): char
    requires n < 0x100
  {
    n as char
  }

  /** `append_utf8`; its shifts and masks are quotients and remainders by powers of two. */
  function Utf8(cp: nat): (r: string)
    requires cp < 0x110000
  {
    if cp <= 0x7F then [Byte(cp)]
    else if cp <= 0x7FF then [Byte(0xC0 + cp / 0x40), Byte(0x80 + cp % 0x40)]
    else if cp <= 0xFFFF then [Byte(0xE0 + cp / 0x1000), Byte(0x80 + cp / 0x40 % 0x40), Byte(0x80 + cp % 0x40)]
    else [Byte(0xF0 + cp / 0x40000), Byte(0x80 + cp / 0x1000 % 0x40), Byte(0x80 + cp / 0x40 % 0x40), Byte(0x80 + cp % 0x40)]
  }

  function PairValue(high: nat, low: nat): (cp: nat)
    requires HighSurrogate(high) && LowSurrogate(low)
    ensures 0x10000 <= cp < 0x110000
  {
    0x10000 + (high - 0xD800) * 0x400 + (low - 0xDC00)
  }

  /** What follows the two bytes `\u`. */
  function ParseUnicode(s: string): (r: Reading<nat>)
    ensures r.Some? ==> |r.value.1| < |s| && Scalar(r.value.0)
  {
    var first := ParseHex4(s);
    if first.None? then None
    else
      var (cp, rest) := first.value;
      if HighSurrogate(cp) && |rest| >= 6 && rest[0] == '\\' && rest[1] == 'u' then
        var second := ParseHex4(rest[2..]);
        if second.Some? && LowSurrogate(second.value.0)
        then Some((PairValue(cp, second.value.0), second.value.1)) else None
      else if HighSurrogate(cp) || LowSurrogate(cp) then None
      else Some((cp, rest))
  }

  /** The single-byte escapes, by the byte after the backslash. */
  function ShortEscape(e: char): Option<char> {
    match e
    case '"' => Some('"')
    case '\\' => Some('\\')
    case '/' => Some('/')
    case 'b' => Some(8 as char)
    case 'f' => Some(12 as char)
    case 'n' => Some('\n')
    case 'r' => Some('\r')
    case 't' => Some('\t')
    case _ => None
  }

  /** What follows a backslash: the bytes it stands for. */
  function ParseEscape(s: string): (r: Reading<string>)
    ensures r.Some? ==> |r.value.1| < |s|
  {
    if s == "" then None
    else if s[0] == 'u' then
      var unicode := ParseUnicode(s[1..]);
      if unicode.None? then None else Some((Utf8(unicode.value.0), unicode.value.1))
    else
      var short := ShortEscape(s[0]);
      if short.None? then None else Some(([short.value], s[1..]))
  }

  /** A string body after its opening quote; `out` has been read already. */
  function ParseChars(s: string, out: string): (r: Reading<string>)
    ensures r.Some? ==> |r.value.1| < |s|
  {
    if s == "" then None
    else if s[0] == '"' then Some((out, s[1..]))
    else if s[0] as int < 0x20 then None
    else if s[0] != '\\' then ParseChars(s[1..], out + [s[0]])
    else
      var escape := ParseEscape(s[1..]);
      if escape.None? then None else ParseChars(escape.value.1, out + escape.value.0)
  }

  function ParseString(s: string): (r: Reading<string>)
    ensures r.Some? ==> |r.value.1| < |s|
  {
    if s == "" || s[0] != '"' then None else ParseChars(s[1..], "")
  }

  // ----- Numbers -----

  function SkipDigits(s: string): (r: string)
    ensures |r| <= |s|
    ensures r != "" ==> !IsDigit(r[0])
    ensures s != "" && IsDigit(s[0]) ==> |r| < |s|
  {
    if s != "" && IsDigit(s[0]) then SkipDigits(s[1..]) else s
  }

  /** At least one digit. */
  function ParseDigits(s: string): (r: Option<string>)
    ensures r.Some? ==> |r.value| < |s|
  {
    if s != "" && IsDigit(s[0]) then Some(SkipDigits(s)) else None
  }

  function ParseInteger(s: string): (r: Option<string>)
    ensures r.Some? ==> |r.value| < |s|
  {
    var t := if s != "" && s[0] == '-' then s[1..] else s;
    if t == "" then None else if t[0] == '0' then Some(t[1..]) else ParseDigits(t)
  }

  function ParseFraction(s: string): (r: Option<string>)
    ensures r.Some? ==> |r.value| <= |s|
  {
    if s != "" && s[0] == '.' then ParseDigits(s[1..]) else Some(s)
  }

  function ParseExponent(s: string): (r: Option<string>)
    ensures r.Some? ==> |r.value| <= |s|
  {
    if s != "" && (s[0] == 'e' || s[0] == 'E') then
      var t := s[1..];
      ParseDigits(if t != "" && (t[0] == '+' || t[0] == '-') then t[1..] else t)
    else Some(s)
  }

  const INT64_MIN := -0x8000_0000_0000_0000
  const INT64_MAX := 0x7FFF_FFFF_FFFF_FFFF

  predicate IntegerLexeme(token: string) {
    token != "" && (if token[0] == '-' then AllDigits(token[1..]) else AllDigits(token))
  }

  function LexemeInt(token: string): int
    requires IntegerLexeme(token)
  {
    if token[0] == '-' then 0 - DigitsValue(token[1..]) else DigitsValue(token)
  }

  /** The digits of a lexeme read as one number, skipping everything else. */
  function Significand(token: string): nat {
    if token == "" then 0
    else
      var init, last := token[..|token| - 1], token[|token| - 1];
      if IsDigit(last) then 10 * Significand(init) + Digit(last) else Significand(init)
  }

  function Power(base: nat, n: nat): nat {
    if n == 0 then 1 else base * Power(base, n - 1)
  }

  /** Does `strtod` stay below overflow, that is, does the exact decimal value round to a finite double? */
  predicate RoundsToFinite(token: string) {
    var mantissa := Before({'e', 'E'}, token);
    var whole := Before({'.'}, mantissa);
    var exponent := token[|mantissa|..];
    var fractionDigits := if |whole| < |mantissa| then |mantissa| - |whole| - 1 else 0;
    var scale := (if '-' in exponent then 0 - Significand(exponent) else Significand(exponent)) - fractionDigits;
    var limit := Power(2, 1024) - Power(2, 970);
    if scale >= 0 then Significand(mantissa) * Power(10, scale) < limit
    else Significand(mantissa) < limit * Power(10, -scale)
  }

  /** The value of a number token: an `int64_t` when it fits, else a finite double. */
  function NumberValue(token: string, floating: bool): Option<Json> {
    if !floating && IntegerLexeme(token) && INT64_MIN <= LexemeInt(token) <= INT64_MAX then Some(Int(LexemeInt(token)))
    else if RoundsToFinite(token) then Some(Double(token))
    else None
  }

  function ParseNumber(s: string): (r: Reading<Json>)
    ensures r.Some? ==> |r.value.1| < |s|
  {
    var integer := ParseInteger(s);
    if integer.None? then None
    else
      var fraction := ParseFraction(integer.value);
      if fraction.None? then None
      else
        var exponent := ParseExponent(fraction.value);
        if exponent.None? then None
        else
          var v := NumberValue(s[..|s| - |exponent.value|], |exponent.value| < |integer.value|);
          if v.None? then None else Some((v.value, exponent.value))
  }

  // ----- Values -----

  function ParseValue(s: string): (r: Reading<Json>)
    ensures r.Some? ==> |r.value.1| < |s|
    decreases |s|, 0
  {
    var t := SkipWs(s);
    if t == "" then None
    else if t[0] == '{' then ParseObject(t[1..])
    else if t[0] == '[' then ParseArray(t[1..])
    else if t[0] == '"' then
      var text := ParseString(t);
      if text.None? then None else Some((Str(text.value.0), text.value.1))
    else if t[0] == 't' then ParseLiteral("true", Bool(true), t)
    else if t[0] == 'f' then ParseLiteral("false", Bool(false), t)
    else if t[0] == 'n' then ParseLiteral("null", Null, t)
    else if t[0] == '-' || IsDigit(t[0]) then ParseNumber(t)
    else None
  }

  /** An object after its opening brace. */
  function ParseObject(s: string): (r: Reading<Json>)
    ensures r.Some? ==> |r.value.1| < |s|
    decreases |s|, 2
  {
    var closed := Consume('}', s);
    if closed.Some? then Some((Obj(map[]), closed.value)) else ParseMembers(s, map[])
  }

  /** One key and its value; nothing about what follows. */
  function ParseMember(s: string): (r: Reading<(string, Json)>)
    ensures r.Some? ==> |r.value.1| < |s|
    decreases |s|, 0
  {
    var key := ParseString(SkipWs(s));
    if key.None? then None
    else
      var colon := Consume(':', key.value.1);
      if colon.None? then None
      else
        var v := ParseValue(colon.value);
        if v.None? then None else Some(((key.value.0, v.value.0), v.value.1))
  }

  /** Members up to the closing brace; `values` have been read already. */
  function ParseMembers(s: string, values: map<string, Json>): (r: Reading<Json>)
    ensures r.Some? ==> |r.value.1| < |s|
    decreases |s|, 1
  {
    var member := ParseMember(s);
    if member.None? then None
    else
      var ((key, v), rest) := member.value;
      var closed := Consume('}', rest);
      if closed.Some? then Some((Obj(values[key := v]), closed.value))
      else
        var comma := Consume(',', rest);
        if comma.None? then None else ParseMembers(comma.value, values[key := v])
  }

  /** An array after its opening bracket. */
  function ParseArray(s: string): (r: Reading<Json>)
    ensures r.Some? ==> |r.value.1| < |s|
    decreases |s|, 2
  {
    var closed := Consume(']', s);
    if closed.Some? then Some((Arr([]), closed.value)) else ParseItems(s, [])
  }

  function ParseItems(s: string, items: seq<Json>): (r: Reading<Json>)
    ensures r.Some? ==> |r.value.1| < |s|
    decreases |s|, 1
  {
    var item := ParseValue(s);
    if item.None? then None
    else
      var closed := Consume(']', item.value.1);
      if closed.Some? then Some((Arr(items + [item.value.0]), closed.value))
      else
        var comma := Consume(',', item.value.1);
        if comma.None? then None else ParseItems(comma.value, items + [item.value.0])
  }

  /** A whole text: one value, and nothing but whitespace around it. */
  function Parse(text: string): Option<Json> {
    var v := ParseValue(text);
    if v.Some? && SkipWs(v.value.1) == "" then Some(v.value.0) else None
  }

  // ----- The parser object -----

  lemma Suffix(text: string, i: nat, j: nat)
    requires i <= |text| && j <= |text| - i
    ensures text[i..][j..] == text[i + j..]
  {
  }

  // Skipping whitespace early makes no difference.

  lemma ConsumeAfterWs(expected: char, s: string)
    ensures Consume(expected, SkipWs(s)) == Consume(expected, s)
  {
  }

  lemma MembersAfterWs(s: string, values: map<string, Json>)
    ensures ParseMembers(SkipWs(s), values) == ParseMembers(s, values)
  {
  }

  lemma ValueAfterWs(s: string)
    ensures ParseValue(SkipWs(s)) == ParseValue(s)
  {
  }

  lemma ItemsAfterWs(s: string, items: seq<Json>)
    ensures ParseItems(SkipWs(s), items) == ParseItems(s, items)
  {
    ValueAfterWs(s);
  }

  function HexPrefix(s: string, i: nat): nat
    requires i <= |s| && forall k :: 0 <= k < i ==> IsHex(s[k])
  {
    if i == 0 then 0 else HexPrefix(s, i - 1) * 16 + Hex(s[i - 1])
  }

  lemma HexPrefixValue(s: string)
    requires |s| >= 4 && forall k :: 0 <= k < 4 ==> IsHex(s[k])
    ensures FourHex(s[..4]) && HexPrefix(s, 4) == Hex4(s[..4])
  {
    var h := s[..4];
    assert h[0] == s[0] && h[1] == s[1] && h[2] == s[2] && h[3] == s[3];
    assert HexPrefix(s, 1) == Hex(s[0]);
    assert HexPrefix(s, 2) == HexPrefix(s, 1) * 16 + Hex(s[1]);
    assert HexPrefix(s, 3) == HexPrefix(s, 2) * 16 + Hex(s[2]);
    hide Hex;
  }

  /** A method that fails, where the source throws, leaves its cursor anywhere in the text. */
  class JsonParser {
    const text: string
    var pos: nat

    ghost predicate Valid()
      reads this
    {
      pos <= |text|
    }

    /** What is still unread. */
    ghost function Rest(): string
      requires Valid()
      reads this
    {
      text[pos..]
    }

    constructor (text: string)
      ensures this.text == text && Valid() && Rest() == text
    {
      this.text := text;
      pos := 0;
    }

    method SkipWhitespace()
      requires Valid()
      modifies this`pos
      ensures Valid() && Rest() == SkipWs(old(Rest())) && pos >= old(pos)
    {
      while pos < |text|
        invariant Valid() && pos >= old(pos) && SkipWs(Rest()) == SkipWs(old(Rest()))
      {
        if !IsWs(text[pos]) {
          break;
        }
        Suffix(text, pos, 1);
        pos := pos + 1;
      }
    }

    method ConsumeChar(expected: char) returns (ok: bool)
      requires Valid()
      modifies this`pos
      ensures Valid() && pos >= old(pos)
      ensures ok == Consume(expected, old(Rest())).Some?
      ensures Rest() == if ok then Consume(expected, old(Rest())).value else SkipWs(old(Rest()))
    {
      SkipWhitespace();
      ok := pos < |text| && text[pos] == expected;
      if ok {
        Suffix(text, pos, 1);
        pos := pos + 1;
      }
    }

    method ParseFourHex() returns (value: Option<nat>)
      requires Valid()
      modifies this`pos
      ensures Valid() && pos >= old(pos)
      ensures Tells(value, ParseHex4(old(Rest())))
    {
      if pos + 4 > |text| {
        return None;
      }
      ghost var s := Rest();
      ghost var start := pos;
      var v, i := 0, 0;
      while i < 4
        invariant 0 <= i <= 4 && Valid() && pos == start + i
        invariant forall k :: 0 <= k < i ==> IsHex(s[k])
        invariant v == HexPrefix(s, i)
      {
        var nibble := HexValue(text[pos]);
        assert text[pos] == s[i];
        pos := pos + 1;
        if nibble.None? {
          return None;
        }
        v := v * 16 + nibble.value;
        i := i + 1;
      }
      Suffix(text, start, 4);
      HexPrefixValue(s);
      value := Some(v);
    }

    method ParseUnicodeEscape() returns (value: Option<nat>)
      requires Valid()
      modifies this`pos
      ensures Valid() && pos >= old(pos)
      ensures Tells(value, ParseUnicode(old(Rest())))
    {
      var first := ParseFourHex();
      if first.None? {
        return None;
      }
      var cp := first.value;
      if HighSurrogate(cp) && pos + 6 <= |text| && text[pos] == '\\' && text[pos + 1] == 'u' {
        Suffix(text, pos, 2);
        pos := pos + 2;
        var low := ParseFourHex();
        if low.None? || !LowSurrogate(low.value) {
          return None;
        }
        cp := PairValue(cp, low.value);
      } else if HighSurrogate(cp) || LowSurrogate(cp) {
        return None;
      }
      value := Some(cp);
    }

    method ParseEscapeSequence() returns (bytes: Option<string>)
      requires Valid()
      modifies this`pos
      ensures Valid() && pos >= old(pos)
      ensures Tells(bytes, ParseEscape(old(Rest())))
    {
      if pos >= |text| {
        return None;
      }
      var escaped := text[pos];
      Suffix(text, pos, 1);
      pos := pos + 1;
      if escaped == 'u' {
        var cp := ParseUnicodeEscape();
        if cp.None? {
          return None;
        }
        bytes := Some(Utf8(cp.value));
      } else {
        var short := ShortEscape(escaped);
        if short.None? {
          return None;
        }
        bytes := Some([short.value]);
      }
    }

    method ParseStringToken() returns (value: Option<string>)
      requires Valid()
      modifies this`pos
      ensures Valid() && pos >= old(pos)
      ensures Tells(value, ParseString(old(Rest())))
    {
      if pos >= |text| || text[pos] != '"' {
        return None;
      }
      Suffix(text, pos, 1);
      pos := pos + 1;
      var out := "";
      while pos < |text|
        invariant Valid() && pos > old(pos)
        invariant ParseChars(Rest(), out) == ParseString(old(Rest()))
        decreases |text| - pos
      {
        var ch := text[pos];
        Suffix(text, pos, 1);
        ghost var here := pos;
        pos := pos + 1;
        if ch == '"' {
          return Some(out);
        }
        if ch as int < 0x20 {
          return None;
        }
        if ch != '\\' {
          out := out + [ch];
        } else {
          var bytes := ParseEscapeSequence();
          if bytes.None? {
            return None;
          }
          out := out + bytes.value;
        }
      }
      value := None;
    }

    method SkipDigitRun()
      requires Valid()
      modifies this`pos
      ensures Valid() && Rest() == SkipDigits(old(Rest())) && pos >= old(pos)
    {
      while pos < |text| && IsDigit(text[pos])
        invariant Valid() && pos >= old(pos) && SkipDigits(Rest()) == SkipDigits(old(Rest()))
      {
        Suffix(text, pos, 1);
        pos := pos + 1;
      }
    }

    /** A run of digits that must not be empty. */
    method ParseDigitRun() returns (ok: bool)
      requires Valid()
      modifies this`pos
      ensures Valid() && pos >= old(pos)
      ensures ok == ParseDigits(old(Rest())).Some?
      ensures ok ==> Rest() == ParseDigits(old(Rest())).value
    {
      if pos >= |text| || !IsDigit(text[pos]) {
        return false;
      }
      SkipDigitRun();
      ok := true;
    }

    method ParseIntegerPart() returns (ok: bool)
      requires Valid()
      modifies this`pos
      ensures Valid() && pos >= old(pos)
      ensures ok == ParseInteger(old(Rest())).Some?
      ensures ok ==> Rest() == ParseInteger(old(Rest())).value
    {
      if pos < |text| && text[pos] == '-' {
        Suffix(text, pos, 1);
        pos := pos + 1;
      }
      if pos >= |text| {
        return false;
      }
      if text[pos] == '0' {
        Suffix(text, pos, 1);
        pos := pos + 1;
        ok := true;
      } else {
        ok := ParseDigitRun();
      }
    }

    method ParseFractionPart() returns (ok: bool, present: bool)
      requires Valid()
      modifies this`pos
      ensures Valid() && pos >= old(pos)
      ensures ok == ParseFraction(old(Rest())).Some?
      ensures ok ==> Rest() == ParseFraction(old(Rest())).value && present == (pos > old(pos))
    {
      ok, present := true, pos < |text| && text[pos] == '.';
      if present {
        Suffix(text, pos, 1);
        pos := pos + 1;
        ok := ParseDigitRun();
      }
    }

    method ParseExponentPart() returns (ok: bool, present: bool)
      requires Valid()
      modifies this`pos
      ensures Valid() && pos >= old(pos)
      ensures ok == ParseExponent(old(Rest())).Some?
      ensures ok ==> Rest() == ParseExponent(old(Rest())).value && present == (pos > old(pos))
    {
      ok, present := true, pos < |text| && (text[pos] == 'e' || text[pos] == 'E');
      if present {
        Suffix(text, pos, 1);
        pos := pos + 1;
        if pos < |text| && (text[pos] == '+' || text[pos] == '-') {
          Suffix(text, pos, 1);
          pos := pos + 1;
        }
        ok := ParseDigitRun();
      }
    }

    method ParseNumberToken() returns (value: Option<Json>)
      requires Valid()
      modifies this`pos
      ensures Valid() && pos >= old(pos)
      ensures Tells(value, ParseNumber(old(Rest())))
    {
      hide NumberValue, ParseInteger, ParseFraction, ParseExponent;
      var begin := pos;
      ghost var s := Rest();
      var ok := ParseIntegerPart();
      if !ok {
        return None;
      }
      var fractional, exponential;
      ok, fractional := ParseFractionPart();
      if !ok {
        return None;
      }
      ok, exponential := ParseExponentPart();
      if !ok {
        return None;
      }
      assert text[begin..pos] == s[..|s| - |Rest()|];
      value := NumberValue(text[begin..pos], fractional || exponential);
    }

    method ParseLiteralToken(literal: string, v: Json) returns (value: Option<Json>)
      requires Valid()
      modifies this`pos
      ensures Valid() && pos >= old(pos)
      ensures Tells(value, ParseLiteral(literal, v, old(Rest())))
    {
      var end := if pos + |literal| <= |text| then pos + |literal| else |text|;
      if text[pos..end] != literal {
        return None;
      }
      Suffix(text, pos, |literal|);
      pos := end;
      value := Some(v);
    }

    method ParseAnyValue() returns (value: Option<Json>)
      requires Valid()
      modifies this`pos
      ensures Valid() && pos >= old(pos)
      ensures Tells(value, ParseValue(old(Rest())))
      decreases |text| - pos, 0
    {
      hide ParseNumber, ParseString, ParseObject, ParseArray, ParseLiteral;
      SkipWhitespace();
      if pos >= |text| {
        return None;
      }
      var ch := text[pos];
      Suffix(text, pos, 1);
      if ch == '{' {
        pos := pos + 1;
        value := ParseObjectRest();
      } else if ch == '[' {
        pos := pos + 1;
        value := ParseArrayRest();
      } else if ch == '"' {
        var s := ParseStringToken();
        value := if s.Some? then Some(Str(s.value)) else None;
      } else if ch == 't' {
        value := ParseLiteralToken("true", Bool(true));
      } else if ch == 'f' {
        value := ParseLiteralToken("false", Bool(false));
      } else if ch == 'n' {
        value := ParseLiteralToken("null", Null);
      } else if ch == '-' || IsDigit(ch) {
        value := ParseNumberToken();
      } else {
        value := None;
      }
    }

    method ParseKeyAndValue() returns (member: Option<(string, Json)>)
      requires Valid()
      modifies this`pos
      ensures Valid() && pos >= old(pos)
      ensures Tells(member, ParseMember(old(Rest())))
      decreases |text| - pos, 0
    {
      hide ParseString, ParseValue, Consume, SkipWs;
      ghost var s := Rest();
      SkipWhitespace();
      var key := ParseStringToken();
      if key.None? {
        return None;
      }
      var colon := ConsumeChar(':');
      if !colon {
        return None;
      }
      var value := ParseAnyValue();
      if value.None? {
        return None;
      }
      member := Some((key.value, value.value));
    }

    /** After the opening brace. */
    method ParseObjectRest() returns (value: Option<Json>)
      requires Valid()
      modifies this`pos
      ensures Valid() && pos >= old(pos)
      ensures Tells(value, ParseObject(old(Rest())))
      decreases |text| - pos, 2
    {
      hide ParseMember, SkipWs, Consume;
      ghost var s := Rest();
      var values: map<string, Json> := map[];
      var closed := ConsumeChar('}');
      if closed {
        return Some(Obj(values));
      }
      MembersAfterWs(s, values);
      while true
        invariant Valid() && pos >= old(pos)
        invariant ParseMembers(Rest(), values) == ParseObject(s)
        decreases |text| - pos
      {
        var member := ParseKeyAndValue();
        if member.None? {
          return None;
        }
        values := values[member.value.0 := member.value.1];
        ghost var rest := Rest();
        closed := ConsumeChar('}');
        if closed {
          return Some(Obj(values));
        }
        ConsumeAfterWs(',', rest);
        var comma := ConsumeChar(',');
        if !comma {
          return None;
        }
      }
    }

    /** After the opening bracket. */
    method ParseArrayRest() returns (value: Option<Json>)
      requires Valid()
      modifies this`pos
      ensures Valid() && pos >= old(pos)
      ensures Tells(value, ParseArray(old(Rest())))
      decreases |text| - pos, 2
    {
      hide ParseValue, SkipWs, Consume;
      ghost var s := Rest();
      var items: seq<Json> := [];
      var closed := ConsumeChar(']');
      if closed {
        return Some(Arr(items));
      }
      ItemsAfterWs(s, items);
      while true
        invariant Valid() && pos >= old(pos)
        invariant ParseItems(Rest(), items) == ParseArray(s)
        decreases |text| - pos
      {
        var item := ParseAnyValue();
        if item.None? {
          return None;
        }
        items := items + [item.value];
        ghost var rest := Rest();
        closed := ConsumeChar(']');
        if closed {
          return Some(Arr(items));
        }
        ConsumeAfterWs(',', rest);
        var comma := ConsumeChar(',');
        if !comma {
          return None;
        }
      }
    }

    method ParseText() returns (value: Option<Json>)
      requires Valid()
      modifies this`pos
      ensures value == Parse(old(Rest()))
    {
      hide ParseValue;
      ValueAfterWs(Rest());
      SkipWhitespace();
      value := ParseAnyValue();
      if value.None? {
        return;
      }
      SkipWhitespace();
      if pos != |text| {
        value := None;
      }
    }

    /** The result of a step and, on success, the cursor that it leaves. */
    ghost predicate Tells<T>(value: Option<T>, reading: Reading<T>)
      requires Valid()
      reads this
    {
      && value.Some? == reading.Some?
      && (value.Some? ==> reading.value == (value.value, Rest()))
    }
  }
}
