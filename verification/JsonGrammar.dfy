/** The grammar of RFC 8259 as concrete syntax trees, and the theorem that the parser
    accepts exactly the printed trees and returns what they denote. Each printing function
    writes its tree in front of the text that follows it. */
module JsonGrammar {
  import opened Telemetry
  import opened Text
  import opened Json
  import opened JsonTables

  // ----- Strings -----

  /** One unit of a string body. */
  datatype Piece =
    | Raw(c: char)
    | Short(e: char)
    | Unicode(digits: string)
    | Pair(high: string, low: string)

  predicate ValidPiece(p: Piece) {
    match p
    case Raw(c) => c as int >= 0x20 && c != '"' && c != '\\'
    case Short(e) => e in ESCAPES
    case Unicode(digits) => IsFourHex(digits) && Scalar(HexNumber(digits))
    case Pair(high, low) =>
      && IsFourHex(high) && IsFourHex(low)
      && 0xD800 <= HexNumber(high) <= 0xDBFF && 0xDC00 <= HexNumber(low) <= 0xDFFF
  }

  /** A piece without its backslash, if it has one. */
  function EscapeThen(p: Piece, rest: string): string {
    match p
    case Raw(c) => [c] + rest
    case Short(e) => [e] + rest
    case Unicode(digits) => ['u'] + (digits + rest)
    case Pair(high, low) => ['u'] + (high + (['\\'] + (['u'] + (low + rest))))
  }

  function PieceThen(p: Piece, rest: string): string {
    if p.Raw? then [p.c] + rest else ['\\'] + EscapeThen(p, rest)
  }

  function PieceBytes(p: Piece): string
    requires ValidPiece(p)
  {
    match p
    case Raw(c) => [c]
    case Short(e) => [ESCAPES[e] as char]
    case Unicode(digits) => Utf8(HexNumber(digits))
    case Pair(high, low) => Utf8(0x10000 + 0x400 * (HexNumber(high) - 0xD800) + (HexNumber(low) - 0xDC00))
  }

  predicate ValidPieces(ps: seq<Piece>) { forall p :: p in ps ==> ValidPiece(p) }

  /** Pieces and the closing quote. */
  function BodyThen(ps: seq<Piece>, rest: string): string {
    if ps == [] then ['"'] + rest else PieceThen(ps[0], BodyThen(ps[1..], rest))
  }

  function StringThen(ps: seq<Piece>, rest: string): string { ['"'] + BodyThen(ps, rest) }

  function StringBytes(ps: seq<Piece>): string
    requires ValidPieces(ps)
  {
    if ps == [] then "" else PieceBytes(ps[0]) + StringBytes(ps[1..])
  }

  lemma Cons(c: char, s: string)
    ensures ([c] + s)[0] == c && ([c] + s)[1..] == s && |[c] + s| == |s| + 1
  {
  }

  lemma Uncons(s: string)
    requires s != ""
    ensures s == [s[0]] + s[1..]
  {
  }

  lemma Hex4Read(digits: string, tail: string)
    requires IsFourHex(digits)
    ensures ParseHex4(digits + tail) == Some((HexNumber(digits), tail))
  {
    FourHexExactly(digits);
    assert (digits + tail)[..4] == digits && (digits + tail)[4..] == tail;
    hide Hex4, HexNumber, FourHex;
  }

  lemma FourLong(s: string)
    requires IsFourHex(s)
    ensures |s| == 4
  {
  }

  lemma PairRead(high: string, low: string, tail: string)
    requires ValidPiece(Pair(high, low))
    ensures ParseUnicode(high + (['\\'] + (['u'] + (low + tail)))) ==
      Some((0x10000 + 0x400 * (HexNumber(high) - 0xD800) + (HexNumber(low) - 0xDC00), tail))
  {
    hide HexNumber, IsFourHex, ParseHex4;
    var rest := ['\\'] + (['u'] + (low + tail));
    FourLong(low);
    assert rest[0] == '\\' && rest[1] == 'u' && rest[2..] == low + tail && |rest| >= 6;
    Hex4Read(high, rest);
    Hex4Read(low, tail);
  }

  lemma ShortRead(e: char, tail: string)
    requires e in ESCAPES
    ensures ParseEscape([e] + tail) == Some(([ESCAPES[e] as char], tail))
  {
    EscapeExactly(e);
    NotUnicode(e);
    Cons(e, tail);
    hide ShortEscape, ESCAPES, ParseUnicode;
  }

  lemma UnicodeRead(digits: string, tail: string)
    requires IsFourHex(digits) && Scalar(HexNumber(digits))
    ensures ParseEscape(['u'] + (digits + tail)) == Some((Utf8(HexNumber(digits)), tail))
  {
    hide HexNumber, IsFourHex, ParseHex4, Utf8, ShortEscape;
    Cons('u', digits + tail);
    Hex4Read(digits, tail);
  }

  lemma EscapedPairRead(high: string, low: string, tail: string)
    requires ValidPiece(Pair(high, low))
    ensures ParseEscape(EscapeThen(Pair(high, low), tail)) == Some((PieceBytes(Pair(high, low)), tail))
  {
    hide HexNumber, IsFourHex, Utf8, ParseUnicode, ShortEscape, ESCAPES;
    PairRead(high, low, tail);
    Cons('u', high + (['\\'] + (['u'] + (low + tail))));
  }

  lemma EscapeRead(p: Piece, tail: string)
    requires ValidPiece(p) && !p.Raw?
    ensures ParseEscape(EscapeThen(p, tail)) == Some((PieceBytes(p), tail))
  {
    hide ParseEscape, HexNumber, IsFourHex, Utf8, ESCAPES;
    match p
    case Short(e) => ShortRead(e, tail);
    case Unicode(digits) => UnicodeRead(digits, tail);
    case Pair(high, low) =>
      hide PieceBytes, EscapeThen;
      EscapedPairRead(high, low, tail);
  }

  lemma NotUnicode(e: char)
    requires e in ESCAPES
    ensures e != 'u' && 0 <= ESCAPES[e] < 0x80
  {
  }

  lemma PieceRead(p: Piece, tail: string, out: string)
    requires ValidPiece(p)
    ensures ParseChars(PieceThen(p, tail), out) == ParseChars(tail, out + PieceBytes(p))
  {
    if p.Raw? {
      Cons(p.c, tail);
    } else {
      EscapeRead(p, tail);
      Cons('\\', EscapeThen(p, tail));
      hide EscapeThen, ParseEscape, PieceBytes, ValidPiece;
    }
  }

  lemma {:induction false} CharsRead(ps: seq<Piece>, rest: string, out: string)
    requires ValidPieces(ps)
    ensures ParseChars(BodyThen(ps, rest), out) == Some((out + StringBytes(ps), rest))
    decreases |ps|
  {
    hide PieceThen, PieceBytes, ParseEscape, ValidPiece;
    if ps == [] {
      Cons('"', rest);
      assert out + StringBytes(ps) == out;
    } else {
      hide ParseChars;
      PieceRead(ps[0], BodyThen(ps[1..], rest), out);
      CharsRead(ps[1..], rest, out + PieceBytes(ps[0]));
      assert out + PieceBytes(ps[0]) + StringBytes(ps[1..]) == out + StringBytes(ps);
    }
  }

  lemma StringRead(ps: seq<Piece>, rest: string)
    requires ValidPieces(ps)
    ensures ParseString(StringThen(ps, rest)) == Some((StringBytes(ps), rest))
  {
    hide ParseChars, BodyThen, ValidPiece, StringBytes;
    CharsRead(ps, rest, "");
    assert "" + StringBytes(ps) == StringBytes(ps);
    Cons('"', BodyThen(ps, rest));
  }

  lemma Hex4Written(s: string)
    requires ParseHex4(s).Some?
    ensures
      && IsFourHex(s[..4]) && ParseHex4(s).value.0 == HexNumber(s[..4])
      && s == s[..4] + ParseHex4(s).value.1
  {
    FourHexExactly(s[..4]);
    hide Hex4, HexNumber, FourHex;
  }

  lemma UnicodeWritten(s: string) returns (p: Piece)
    requires ParseUnicode(s).Some?
    ensures ValidPiece(p) && !p.Raw? && EscapeThen(p, ParseUnicode(s).value.1) == ['u'] + s
    ensures PieceBytes(p) == Utf8(ParseUnicode(s).value.0)
  {
    hide HexNumber, Utf8, IsFourHex;
    var (cp, rest) := ParseHex4(s).value;
    Hex4Written(s);
    if HighSurrogate(cp) {
      hide ParseHex4;
      Hex4Written(rest[2..]);
      p := Pair(s[..4], rest[2..][..4]);
      assert rest == ['\\'] + (['u'] + rest[2..]);
    } else {
      hide ParseHex4;
      p := Unicode(s[..4]);
    }
  }

  /** Which piece a successful escape was. */
  lemma EscapeWritten(s: string) returns (p: Piece)
    requires ParseEscape(s).Some?
    ensures ValidPiece(p) && !p.Raw? && EscapeThen(p, ParseEscape(s).value.1) == s
    ensures PieceBytes(p) == ParseEscape(s).value.0
  {
    Uncons(s);
    if s[0] == 'u' {
      hide ParseUnicode, Utf8, ValidPiece, PieceBytes, EscapeThen;
      p := UnicodeWritten(s[1..]);
    } else {
      EscapeExactly(s[0]);
      NotUnicode(s[0]);
      hide ShortEscape, ESCAPES;
      p := Short(s[0]);
    }
  }

  lemma {:induction false} CharsWritten(s: string, out: string) returns (ps: seq<Piece>)
    requires ParseChars(s, out).Some?
    ensures ValidPieces(ps) && s == BodyThen(ps, ParseChars(s, out).value.1)
    ensures ParseChars(s, out).value.0 == out + StringBytes(ps)
    decreases |s|
  {
    hide ParseEscape, ValidPiece, PieceBytes, EscapeThen;
    Uncons(s);
    if s[0] == '"' {
      ps := [];
    } else {
      var p, tail, bytes;
      if s[0] == '\\' {
        p := EscapeWritten(s[1..]);
        tail, bytes := ParseEscape(s[1..]).value.1, ParseEscape(s[1..]).value.0;
      } else {
        p, tail, bytes := Raw(s[0]), s[1..], [s[0]];
        RawValid(s[0]);
      }
      assert s == PieceThen(p, tail);
      assert ParseChars(s, out) == ParseChars(tail, out + bytes);
      hide PieceThen, ParseChars;
      var more := CharsWritten(tail, out + bytes);
      ps := [p] + more;
      assert ps[1..] == more && ps[0] == p;
      assert out + bytes + StringBytes(more) == out + StringBytes(ps);
    }
  }

  lemma RawValid(c: char)
    requires c as int >= 0x20 && c != '"' && c != '\\'
    ensures ValidPiece(Raw(c)) && PieceBytes(Raw(c)) == [c]
  {
  }

  lemma StringWritten(s: string) returns (ps: seq<Piece>)
    requires ParseString(s).Some?
    ensures ValidPieces(ps) && s == StringThen(ps, ParseString(s).value.1)
    ensures ParseString(s).value.0 == StringBytes(ps)
  {
    Uncons(s);
    hide ParseChars, BodyThen, StringBytes, ValidPiece;
    ps := CharsWritten(s[1..], "");
  }

  // ----- Numbers -----

  datatype Exponent = Exponent(mark: char, sign: string, digits: string)

  datatype Number = Number(minus: bool, whole: string, fraction: Option<string>, exponent: Option<Exponent>)

  predicate SomeDigits(s: string) { s != "" && AllDigits(s) }

  /** No leading zero. */
  predicate ValidWhole(whole: string) { SomeDigits(whole) && (whole[0] == '0' ==> |whole| == 1) }

  predicate ValidFraction(f: Option<string>) { f.Some? ==> SomeDigits(f.value) }

  predicate ValidExponent(e: Option<Exponent>) {
    e.Some? ==> e.value.mark in {'e', 'E'} && e.value.sign in {"", "+", "-"} && SomeDigits(e.value.digits)
  }

  predicate WellFormed(n: Number) { ValidWhole(n.whole) && ValidFraction(n.fraction) && ValidExponent(n.exponent) }

  /** Well formed and, unless an `int64_t`, not out of the range of finite doubles. */
  predicate ValidNumber(n: Number) { WellFormed(n) && Denoted(n).Some? }

  // What a number denotes, by its parts.

  function FractionDigits(n: Number): string { if n.fraction.Some? then n.fraction.value else "" }

  function ExponentValue(n: Number): int
    requires WellFormed(n)
  {
    if n.exponent.None? then 0
    else if n.exponent.value.sign == "-" then -(DigitsValue(n.exponent.value.digits) as int)
    else DigitsValue(n.exponent.value.digits)
  }

  /** The whole and fraction digits as one number, and the power of ten that it is multiplied by. */
  function AllDigitsValue(n: Number): nat
    requires WellFormed(n)
  {
    DigitsValue(n.whole + FractionDigits(n))
  }

  function PowerOfTen(n: Number): int
    requires WellFormed(n)
  {
    ExponentValue(n) - |FractionDigits(n)|
  }

  /** Below half a unit beyond the largest finite double, so that rounding to nearest stays finite. */
  predicate StaysFinite(digits: nat, power: int) {
    var bound := Power(2, 1024) - Power(2, 970);
    if power >= 0 then digits * Power(10, power) < bound else digits < bound * Power(10, -power)
  }

  predicate InDoubleRange(n: Number)
    requires WellFormed(n)
  {
    StaysFinite(AllDigitsValue(n), PowerOfTen(n))
  }

  /** An integer of 64 bits when it is written as one and fits, else a double. */
  function Denoted(n: Number): Option<Json>
    requires WellFormed(n)
  {
    var whole: int := if n.minus then -(DigitsValue(n.whole) as int) else DigitsValue(n.whole);
    if n.fraction.None? && n.exponent.None? && -0x8000_0000_0000_0000 <= whole < 0x8000_0000_0000_0000 then Some(Int(whole))
    else if InDoubleRange(n) then Some(Double(NumberThen(n, "")))
    else None
  }

  function IntegerThen(minus: bool, whole: string, rest: string): string {
    if minus then ['-'] + (whole + rest) else whole + rest
  }

  function FractionThen(f: Option<string>, rest: string): string {
    if f.None? then rest else ['.'] + (f.value + rest)
  }

  function ExponentThen(e: Option<Exponent>, rest: string): string {
    if e.None? then rest else [e.value.mark] + (e.value.sign + (e.value.digits + rest))
  }

  function NumberThen(n: Number, rest: string): string {
    IntegerThen(n.minus, n.whole, FractionThen(n.fraction, ExponentThen(n.exponent, rest)))
  }

  predicate Floating(n: Number) { n.fraction.Some? || n.exponent.Some? }

  /** What may follow a value. */
  predicate Terminated(rest: string) {
    rest == "" || Blank(rest[0]) || rest[0] in {',', ']', '}'}
  }

  // Each layer of a number, in front of what follows it.

  lemma ConsAppends(c: char, a: string, rest: string)
    ensures [c] + (a + rest) == ([c] + a) + rest
  {
  }

  lemma Reassociate(a: string, b: string, c: string)
    ensures a + (b + c) == (a + b) + c
  {
  }

  lemma ExponentAppends(e: Option<Exponent>, rest: string)
    ensures ExponentThen(e, rest) == ExponentThen(e, "") + rest
  {
    if e.Some? {
      var mark, sign, digits := e.value.mark, e.value.sign, e.value.digits;
      assert digits + "" == digits;
      Reassociate(sign, digits, rest);
      ConsAppends(mark, sign + digits, rest);
    }
  }

  lemma FractionAppends(f: Option<string>, a: string, rest: string)
    ensures FractionThen(f, a + rest) == FractionThen(f, a) + rest
  {
    if f.Some? {
      Reassociate(f.value, a, rest);
      ConsAppends('.', f.value + a, rest);
    }
  }

  lemma IntegerAppends(minus: bool, whole: string, a: string, rest: string)
    ensures IntegerThen(minus, whole, a + rest) == IntegerThen(minus, whole, a) + rest
  {
    Reassociate(whole, a, rest);
    ConsAppends('-', whole + a, rest);
  }

  lemma NumberThenAppends(n: Number, rest: string)
    ensures NumberThen(n, rest) == NumberThen(n, "") + rest
  {
    hide IntegerThen, FractionThen, ExponentThen;
    var e := ExponentThen(n.exponent, "");
    ExponentAppends(n.exponent, rest);
    FractionAppends(n.fraction, e, rest);
    IntegerAppends(n.minus, n.whole, FractionThen(n.fraction, e), rest);
  }

  lemma {:induction false} DigitsSkipped(digits: string, rest: string)
    requires AllDigits(digits) && (rest == "" || !IsDigit(rest[0]))
    ensures SkipDigits(digits + rest) == rest
    decreases |digits|
  {
    if digits == "" {
      assert digits + rest == rest;
    } else {
      assert (digits + rest)[1..] == digits[1..] + rest;
      assert forall c :: c in digits[1..] ==> c in digits;
      DigitsSkipped(digits[1..], rest);
    }
  }

  lemma DigitsRead(digits: string, rest: string)
    requires SomeDigits(digits) && (rest == "" || !IsDigit(rest[0]))
    ensures ParseDigits(digits + rest) == Some(rest)
  {
    DigitsSkipped(digits, rest);
    assert (digits + rest)[0] == digits[0] && digits[0] in digits;
  }

  lemma IntegerRead(minus: bool, whole: string, rest: string)
    requires ValidWhole(whole) && (rest == "" || !IsDigit(rest[0]))
    ensures ParseInteger(IntegerThen(minus, whole, rest)) == Some(rest)
  {
    var t := whole + rest;
    DigitsRead(whole, rest);
    Cons('-', t);
    assert t[0] == whole[0] && whole[0] in whole && t[|whole|..] == rest;
    hide ParseDigits;
  }

  lemma FractionRead(f: Option<string>, rest: string)
    requires ValidFraction(f) && (rest == "" || (!IsDigit(rest[0]) && rest[0] != '.'))
    ensures ParseFraction(FractionThen(f, rest)) == Some(rest)
  {
    if f.Some? {
      Cons('.', f.value + rest);
      DigitsRead(f.value, rest);
      hide ParseDigits;
    }
  }

  lemma SignRead(sign: string, d: string)
    requires sign in {"", "+", "-"} && d != "" && IsDigit(d[0])
    ensures
      var t := sign + d;
      t != "" && (if t[0] == '+' || t[0] == '-' then t[1..] else t) == d
  {
    if sign == "" {
      assert sign + d == d;
    } else {
      Cons(sign[0], d);
      assert sign == [sign[0]];
    }
  }

  lemma ExponentRead(e: Option<Exponent>, rest: string)
    requires ValidExponent(e) && (rest == "" || (!IsDigit(rest[0]) && rest[0] != 'e' && rest[0] != 'E'))
    ensures ParseExponent(ExponentThen(e, rest)) == Some(rest)
  {
    hide ParseDigits;
    if e.Some? {
      var sign, digits := e.value.sign, e.value.digits;
      var d := digits + rest;
      DigitsRead(digits, rest);
      assert d[0] == digits[0] && digits[0] in digits;
      SignRead(sign, d);
      Cons(e.value.mark, sign + d);
    }
  }

  // The parser's scan of a token finds the same parts.

  function OnlyDigits(s: string): (r: string)
    ensures AllDigits(r)
  {
    if s == "" then ""
    else
      var init, last := s[..|s| - 1], s[|s| - 1];
      OnlyDigits(init) + if IsDigit(last) then [last] else ""
  }

  lemma {:induction false} SignificandIs(s: string)
    ensures Significand(s) == DigitsValue(OnlyDigits(s))
    decreases |s|
  {
    if s != "" {
      var init, last := s[..|s| - 1], s[|s| - 1];
      SignificandIs(init);
      if IsDigit(last) {
        assert OnlyDigits(s)[..|OnlyDigits(s)| - 1] == OnlyDigits(init);
      } else {
        assert OnlyDigits(s) == OnlyDigits(init);
      }
    }
  }

  lemma {:induction false} OnlyDigitsConcat(a: string, b: string)
    ensures OnlyDigits(a + b) == OnlyDigits(a) + OnlyDigits(b)
    decreases |b|
  {
    if b == "" {
      assert a + b == a;
    } else {
      assert (a + b)[..|a + b| - 1] == a + b[..|b| - 1];
      OnlyDigitsConcat(a, b[..|b| - 1]);
    }
  }

  lemma {:induction false} DigitsOnly(s: string)
    requires AllDigits(s)
    ensures OnlyDigits(s) == s
    decreases |s|
  {
    if s != "" {
      assert s[|s| - 1] in s;
      assert forall c :: c in s[..|s| - 1] ==> c in s;
      DigitsOnly(s[..|s| - 1]);
    }
  }

  lemma NoDigit(c: char)
    requires !IsDigit(c)
    ensures OnlyDigits([c]) == ""
  {
    assert [c][..0] == "";
  }

  /** The token up to its exponent, and up to its fraction. */
  function MantissaText(n: Number): string { IntegerThen(n.minus, n.whole, FractionThen(n.fraction, "")) }

  lemma MantissaFound(n: Number)
    requires WellFormed(n)
    ensures NumberThen(n, "") == MantissaText(n) + ExponentThen(n.exponent, "")
    ensures Before({'e', 'E'}, NumberThen(n, "")) == MantissaText(n)
  {
    var e := ExponentThen(n.exponent, "");
    hide ExponentThen;
    assert "" + e == e;
    FractionAppends(n.fraction, "", e);
    IntegerAppends(n.minus, n.whole, FractionThen(n.fraction, ""), e);
    MantissaPlain(n);
    assert e == "" || e[0] in {'e', 'E'} by { ExponentStart(n.exponent); }
    BeforeIs({'e', 'E'}, MantissaText(n), e);
  }

  lemma ExponentStart(e: Option<Exponent>)
    requires ValidExponent(e)
    ensures ExponentThen(e, "") == "" || ExponentThen(e, "")[0] in {'e', 'E'}
  {
  }

  lemma MantissaPlain(n: Number)
    requires WellFormed(n)
    ensures forall c :: c in MantissaText(n) ==> c !in {'e', 'E'}
  {
  }

  lemma WholeFound(n: Number)
    requires WellFormed(n)
    ensures
      var whole := Before({'.'}, MantissaText(n));
      (if |whole| < |MantissaText(n)| then |MantissaText(n)| - |whole| - 1 else 0) == |FractionDigits(n)|
  {
    var i := IntegerThen(n.minus, n.whole, "");
    var f := FractionThen(n.fraction, "");
    assert "" + f == f;
    IntegerAppends(n.minus, n.whole, "", f);
    assert forall c :: c in i ==> c != '.';
    BeforeIs({'.'}, i, f);
    assert f == "" || |f| == 1 + |FractionDigits(n)|;
  }

  lemma FractionOnly(f: Option<string>)
    requires ValidFraction(f)
    ensures OnlyDigits(FractionThen(f, "")) == if f.Some? then f.value else ""
  {
    if f.Some? {
      assert f.value + "" == f.value;
      NoDigit('.');
      DigitsOnly(f.value);
      OnlyDigitsConcat(['.'], f.value);
      assert "" + f.value == f.value;
    }
    hide OnlyDigits;
  }

  lemma MantissaDigits(n: Number)
    requires WellFormed(n)
    ensures Significand(MantissaText(n)) == AllDigitsValue(n)
  {
    var f := FractionThen(n.fraction, "");
    SignificandIs(MantissaText(n));
    FractionOnly(n.fraction);
    DigitsOnly(n.whole);
    NoDigit('-');
    hide OnlyDigits, DigitsValue, Significand, FractionThen;
    OnlyDigitsConcat(n.whole, f);
    var body := n.whole + FractionDigits(n);
    assert OnlyDigits(n.whole + f) == body;
    OnlyDigitsConcat(['-'], n.whole + f);
    assert "" + body == body;
  }

  lemma SignOnly(sign: string)
    requires sign in {"", "+", "-"}
    ensures OnlyDigits(sign) == ""
  {
    if sign != "" {
      NoDigit(sign[0]);
      assert sign == [sign[0]];
    }
  }

  lemma ExponentDigits(mark: char, sign: string, digits: string)
    requires mark in {'e', 'E'} && sign in {"", "+", "-"} && SomeDigits(digits)
    ensures
      var text := [mark] + (sign + digits);
      OnlyDigits(text) == digits && ('-' in text <==> sign == "-")
  {
    assert '-' !in digits;
    MinusIn(mark, sign, digits);
    NoDigit(mark);
    DigitsOnly(digits);
    SignOnly(sign);
    hide OnlyDigits, AllDigits;
    OnlyDigitsConcat(sign, digits);
    OnlyDigitsConcat([mark], sign + digits);
    assert "" + digits == digits;
  }

  lemma MinusIn(mark: char, sign: string, digits: string)
    requires mark != '-' && sign in {"", "+", "-"} && '-' !in digits
    ensures '-' in [mark] + (sign + digits) <==> sign == "-"
  {
    if sign != "" {
      assert sign == [sign[0]];
      assert ([mark] + (sign + digits))[1] == sign[0];
    }
  }

  lemma ExponentFound(n: Number)
    requires WellFormed(n)
    ensures
      var text := ExponentThen(n.exponent, "");
      (if '-' in text then 0 - Significand(text) else Significand(text)) == ExponentValue(n)
  {
    var text := ExponentThen(n.exponent, "");
    SignificandIs(text);
    if n.exponent.Some? {
      var e := n.exponent.value;
      assert e.digits + "" == e.digits;
      ExponentDigits(e.mark, e.sign, e.digits);
    }
    hide OnlyDigits, Significand, DigitsValue, AllDigits;
  }

  /** The scan's test, by the parts that the scan finds. */
  lemma RangeByParts(mantissa: string, exponent: string, significand: nat, scale: int)
    requires Before({'e', 'E'}, mantissa + exponent) == mantissa && significand == Significand(mantissa)
    requires
      var whole := Before({'.'}, mantissa);
      var fraction := if |whole| < |mantissa| then |mantissa| - |whole| - 1 else 0;
      scale == (if '-' in exponent then 0 - Significand(exponent) else Significand(exponent)) - fraction
    ensures RoundsToFinite(mantissa + exponent) <==> StaysFinite(significand, scale)
  {
    ExponentAfter(mantissa, exponent);
    hide Power, Significand, Before;
  }

  lemma RangeExactly(n: Number)
    requires WellFormed(n)
    ensures RoundsToFinite(NumberThen(n, "")) == InDoubleRange(n)
  {
    MantissaFound(n);
    WholeFound(n);
    MantissaDigits(n);
    ExponentFound(n);
    hide MantissaText, NumberThen, ExponentThen, Significand, AllDigitsValue, ExponentValue, FractionDigits, Before, WellFormed,
         RoundsToFinite, StaysFinite;
    RangeByParts(MantissaText(n), ExponentThen(n.exponent, ""), AllDigitsValue(n), PowerOfTen(n));
  }

  lemma ExponentAfter(a: string, b: string)
    ensures (a + b)[|a|..] == b
  {
  }

  lemma IntegerExactly(n: Number)
    requires WellFormed(n) && !Floating(n)
    ensures
      var token := NumberThen(n, "");
      && IntegerLexeme(token)
      && LexemeInt(token) == if n.minus then -(DigitsValue(n.whole) as int) else DigitsValue(n.whole)
  {
    assert n.whole + "" == n.whole;
    assert n.whole[0] in n.whole;
    Cons('-', n.whole);
    hide DigitsValue;
  }

  /** The value of a token, by its text, is what the number denotes, by its parts. */
  lemma NumberExactly(n: Number)
    requires WellFormed(n)
    ensures NumberValue(NumberThen(n, ""), Floating(n)) == Denoted(n)
  {
    hide NumberThen, RoundsToFinite, InDoubleRange, LexemeInt, IntegerLexeme, DigitsValue, WellFormed;
    RangeExactly(n);
    if !Floating(n) {
      IntegerExactly(n);
    }
  }

  lemma NumberRead(n: Number, rest: string)
    requires ValidNumber(n) && Terminated(rest)
    ensures ParseNumber(NumberThen(n, rest)) == Some((Denoted(n).value, rest))
  {
    NumberExactly(n);
    PartsRead(n, rest);
    NumberThenAppends(n, rest);
    Prefix(NumberThen(n, ""), rest);
    FloatingLonger(n, rest);
    hide NumberValue, Denoted, ParseInteger, ParseFraction, ParseExponent, IntegerThen, FractionThen, ExponentThen, WellFormed,
         Floating, Terminated;
  }

  lemma PartsRead(n: Number, rest: string)
    requires WellFormed(n) && Terminated(rest)
    ensures
      var e := ExponentThen(n.exponent, rest);
      var f := FractionThen(n.fraction, e);
      && ParseInteger(NumberThen(n, rest)) == Some(f) && ParseFraction(f) == Some(e) && ParseExponent(e) == Some(rest)
  {
    hide ParseInteger, ParseFraction, ParseExponent, ValidWhole;
    var e := ExponentThen(n.exponent, rest);
    var f := FractionThen(n.fraction, e);
    assert e == rest || (e[0] in {'e', 'E'} && |e| > |rest|);
    assert f == e || (f[0] == '.' && |f| > |e|);
    hide FractionThen, ExponentThen;
    IntegerRead(n.minus, n.whole, f);
    FractionRead(n.fraction, e);
    ExponentRead(n.exponent, rest);
  }

  lemma FloatingLonger(n: Number, rest: string)
    ensures (|rest| < |FractionThen(n.fraction, ExponentThen(n.exponent, rest))|) == Floating(n)
  {
  }

  lemma Prefix(a: string, b: string)
    ensures (a + b)[..|a + b| - |b|] == a
  {
  }

  lemma {:induction false} DigitsTaken(s: string) returns (digits: string)
    requires ParseDigits(s).Some?
    ensures SomeDigits(digits) && s == digits + ParseDigits(s).value && digits[0] == s[0]
    decreases |s|
  {
    var t := s[1..];
    Uncons(s);
    DigitsSkip(s);
    if ParseDigits(t).Some? {
      var more := DigitsTaken(t);
      digits := [s[0]] + more;
      ConsAppends(s[0], more, ParseDigits(t).value);
    } else {
      digits := [s[0]];
    }
    hide ParseDigits;
  }

  lemma DigitsSkip(s: string)
    requires ParseDigits(s).Some?
    ensures
      var t := s[1..];
      ParseDigits(s).value == if ParseDigits(t).Some? then ParseDigits(t).value else t
  {
  }

  lemma IntegerWritten(s: string) returns (minus: bool, whole: string)
    requires ParseInteger(s).Some?
    ensures ValidWhole(whole) && s == IntegerThen(minus, whole, ParseInteger(s).value)
  {
    hide ParseDigits;
    minus := s != "" && s[0] == '-';
    Uncons(s);
    var t := if minus then s[1..] else s;
    if t[0] == '0' {
      whole := [t[0]];
      Uncons(t);
    } else {
      whole := DigitsTaken(t);
    }
  }

  lemma FractionWritten(s: string) returns (f: Option<string>)
    requires ParseFraction(s).Some?
    ensures ValidFraction(f) && s == FractionThen(f, ParseFraction(s).value)
  {
    hide ParseDigits;
    f := None;
    if s != "" && s[0] == '.' {
      Uncons(s);
      var digits := DigitsTaken(s[1..]);
      f := Some(digits);
    }
  }

  lemma ExponentWritten(s: string) returns (e: Option<Exponent>)
    requires ParseExponent(s).Some?
    ensures ValidExponent(e) && s == ExponentThen(e, ParseExponent(s).value)
  {
    hide ParseDigits;
    e := None;
    if s != "" && (s[0] == 'e' || s[0] == 'E') {
      Uncons(s);
      var t := s[1..];
      var sign, d := "", t;
      if t != "" && (t[0] == '+' || t[0] == '-') {
        Uncons(t);
        sign, d := [t[0]], t[1..];
      }
      assert t == sign + d;
      var digits := DigitsTaken(d);
      e := Some(Exponent(s[0], sign, digits));
    }
  }

  lemma NumberWritten(s: string) returns (n: Number)
    requires ParseNumber(s).Some?
    ensures ValidNumber(n) && s == NumberThen(n, ParseNumber(s).value.1)
    ensures Denoted(n) == Some(ParseNumber(s).value.0)
  {
    hide NumberValue, Denoted, ParseInteger, ParseFraction, ParseExponent, ValidWhole, ValidFraction, ValidExponent;
    var s1 := ParseInteger(s).value;
    var s2 := ParseFraction(s1).value;
    var rest := ParseExponent(s2).value;
    var minus, whole := IntegerWritten(s);
    var f := FractionWritten(s1);
    var e := ExponentWritten(s2);
    n := Number(minus, whole, f, e);
    NumberExactly(n);
    FloatingLonger(n, rest);
    NumberThenAppends(n, rest);
    Prefix(NumberThen(n, ""), rest);
    hide IntegerThen, FractionThen, ExponentThen;
  }

  // ----- Values -----

  datatype Doc =
    | NullDoc
    | BoolDoc(b: bool)
    | NumberDoc(n: Number)
    | StringDoc(ps: seq<Piece>)
    | EmptyArray(ws: string)
    | ArrayDoc(items: Items)
    | EmptyObject(ws: string)
    | ObjectDoc(members: Members)

  datatype Items =
    | LastItem(before: string, doc: Doc, after: string)
    | MoreItems(before: string, doc: Doc, after: string, more: Items)

  datatype Member = Member(before: string, key: seq<Piece>, afterKey: string, beforeValue: string, doc: Doc, after: string)

  datatype Members =
    | LastMember(m: Member)
    | MoreMembers(m: Member, more: Members)

  function DocThen(d: Doc, rest: string): string {
    match d
    case NullDoc => "null" + rest
    case BoolDoc(b) => (if b then "true" else "false") + rest
    case NumberDoc(n) => NumberThen(n, rest)
    case StringDoc(ps) => StringThen(ps, rest)
    case EmptyArray(ws) => ['['] + (ws + ([']'] + rest))
    case ArrayDoc(items) => ['['] + ItemsThen(items, rest)
    case EmptyObject(ws) => ['{'] + (ws + (['}'] + rest))
    case ObjectDoc(members) => ['{'] + MembersThen(members, rest)
  }

  /** Items, the commas between them and the closing bracket. */
  function ItemsThen(items: Items, rest: string): string {
    match items
    case LastItem(before, doc, after) => before + DocThen(doc, after + ([']'] + rest))
    case MoreItems(before, doc, after, more) => before + DocThen(doc, after + ([','] + ItemsThen(more, rest)))
  }

  function MemberThen(m: Member, rest: string): string {
    m.before + StringThen(m.key, m.afterKey + ([':'] + (m.beforeValue + DocThen(m.doc, m.after + rest))))
  }

  function MembersThen(ms: Members, rest: string): string {
    match ms
    case LastMember(m) => MemberThen(m, ['}'] + rest)
    case MoreMembers(m, more) => MemberThen(m, [','] + MembersThen(more, rest))
  }

  predicate AllWs(s: string) { forall c :: c in s ==> Blank(c) }

  predicate ValidDoc(d: Doc) {
    match d
    case NumberDoc(n) => ValidNumber(n)
    case StringDoc(ps) => ValidPieces(ps)
    case EmptyArray(ws) => AllWs(ws)
    case ArrayDoc(items) => ValidItems(items)
    case EmptyObject(ws) => AllWs(ws)
    case ObjectDoc(members) => ValidMembers(members)
    case _ => true
  }

  predicate ValidItems(items: Items) {
    AllWs(items.before) && AllWs(items.after) && ValidDoc(items.doc) && (items.MoreItems? ==> ValidItems(items.more))
  }

  predicate ValidMember(m: Member) {
    && AllWs(m.before) && AllWs(m.afterKey) && AllWs(m.beforeValue) && AllWs(m.after)
    && ValidPieces(m.key) && ValidDoc(m.doc)
  }

  predicate ValidMembers(ms: Members) {
    ValidMember(ms.m) && (ms.MoreMembers? ==> ValidMembers(ms.more))
  }

  /** The value that a tree denotes; a repeated key keeps its last value. */
  function Meaning(d: Doc): Json
    requires ValidDoc(d)
  {
    match d
    case NullDoc => Null
    case BoolDoc(b) => Bool(b)
    case NumberDoc(n) => Denoted(n).value
    case StringDoc(ps) => Str(StringBytes(ps))
    case EmptyArray(_) => Arr([])
    case ArrayDoc(items) => Arr(ItemsMeaning(items))
    case EmptyObject(_) => Obj(map[])
    case ObjectDoc(members) => Obj(MembersMeaning(members, map[]))
  }

  function ItemsMeaning(items: Items): seq<Json>
    requires ValidItems(items)
  {
    [Meaning(items.doc)] + if items.MoreItems? then ItemsMeaning(items.more) else []
  }

  function Assigned(m: Member, known: map<string, Json>): map<string, Json>
    requires ValidMember(m)
  {
    known[StringBytes(m.key) := Meaning(m.doc)]
  }

  function MembersMeaning(ms: Members, known: map<string, Json>): map<string, Json>
    requires ValidMembers(ms)
  {
    var next := Assigned(ms.m, known);
    if ms.MoreMembers? then MembersMeaning(ms.more, next) else next
  }

  // ----- Printed trees parse to their meaning -----

  lemma {:induction false} WsSkipped(ws: string, rest: string)
    requires AllWs(ws)
    ensures SkipWs(ws + rest) == SkipWs(rest)
    decreases |ws|
  {
    if ws == "" {
      assert ws + rest == rest;
    } else {
      assert ws[0] in ws;
      assert (ws + rest)[1..] == ws[1..] + rest;
      assert forall c :: c in ws[1..] ==> c in ws;
      WsSkipped(ws[1..], rest);
    }
  }

  lemma ConsumeRead(ws: string, c: char, rest: string)
    requires AllWs(ws) && !IsWs(c)
    ensures Consume(c, ws + ([c] + rest)) == Some(rest)
    ensures forall d :: d != c ==> Consume(d, ws + ([c] + rest)).None?
  {
    WsSkipped(ws, [c] + rest);
    Cons(c, rest);
  }

  /** The first byte of a printed value announces its kind. */
  lemma FirstByte(d: Doc, rest: string)
    requires ValidDoc(d)
    ensures
      var s := DocThen(d, rest);
      && s != "" && !IsWs(s[0]) && s[0] !in {']', '}', ',', ':'}
      && SkipWs(s) == s
      && (d.NumberDoc? ==> s[0] == '-' || IsDigit(s[0]))
  {
    if d.NumberDoc? {
      var w := d.n.whole;
      assert w[0] in w;
      NumberThenAppends(d.n, rest);
      hide AllDigits, Denoted, FractionThen, ExponentThen;
    } else {
      hide ValidDoc, BodyThen, ItemsThen, MembersThen;
    }
  }

  lemma ParseAfterWs(ws: string, s: string)
    requires AllWs(ws)
    ensures ParseValue(ws + s) == ParseValue(s)
  {
    WsSkipped(ws, s);
    ValueAfterWs(ws + s);
    ValueAfterWs(s);
    hide ParseValue, SkipWs;
  }

  lemma NumberLeaf(n: Number, rest: string)
    requires ValidNumber(n) && Terminated(rest)
    ensures ParseValue(NumberThen(n, rest)) == Some((Meaning(NumberDoc(n)), rest))
  {
    hide ParseValue, SkipWs, ParseNumber, ValidNumber, NumberThen, Terminated, Denoted;
    FirstByte(NumberDoc(n), rest);
    NumberStart(NumberThen(n, rest));
    NumberRead(n, rest);
  }

  lemma NumberStart(s: string)
    requires s != "" && SkipWs(s) == s && (s[0] == '-' || IsDigit(s[0]))
    ensures ParseValue(s) == ParseNumber(s)
  {
    hide ParseNumber, ParseString, ParseObject, ParseArray, ParseLiteral;
  }

  lemma StringLeaf(ps: seq<Piece>, rest: string)
    requires ValidPieces(ps)
    ensures ParseValue(StringThen(ps, rest)) == Some((Str(StringBytes(ps)), rest))
  {
    FirstByte(StringDoc(ps), rest);
    StringRead(ps, rest);
    hide SkipWs, ParseString, BodyThen, ValidPiece, StringBytes;
  }

  lemma EmptyLeaf(ws: string, rest: string)
    requires AllWs(ws)
    ensures ParseValue(DocThen(EmptyArray(ws), rest)) == Some((Arr([]), rest))
    ensures ParseValue(DocThen(EmptyObject(ws), rest)) == Some((Obj(map[]), rest))
  {
    FirstByte(EmptyArray(ws), rest);
    FirstByte(EmptyObject(ws), rest);
    Cons('[', ws + ([']'] + rest));
    ConsumeRead(ws, ']', rest);
    Cons('{', ws + (['}'] + rest));
    ConsumeRead(ws, '}', rest);
    hide SkipWs, Consume, AllWs;
  }

  lemma WordLeaf(d: Doc, rest: string)
    requires d.NullDoc? || d.BoolDoc?
    ensures ParseValue(DocThen(d, rest)) == Some((Meaning(d), rest))
  {
  }

  lemma LeafRead(d: Doc, rest: string)
    requires ValidDoc(d) && Terminated(rest)
    requires !(d.ArrayDoc? || d.ObjectDoc?)
    ensures ParseValue(DocThen(d, rest)) == Some((Meaning(d), rest))
  {
    hide ParseValue, ValidNumber, NumberThen, StringThen, Terminated, ValidPieces, AllWs;
    match d
    case NumberDoc(n) => NumberLeaf(n, rest);
    case StringDoc(ps) => StringLeaf(ps, rest);
    case EmptyArray(ws) => EmptyLeaf(ws, rest);
    case EmptyObject(ws) => EmptyLeaf(ws, rest);
    case _ => WordLeaf(d, rest);
  }

  /** The printed form of a tree, after any whitespace, parses to its meaning. */
  lemma {:induction false} ValueRead(ws: string, d: Doc, rest: string)
    requires AllWs(ws) && ValidDoc(d) && Terminated(rest)
    ensures ParseValue(ws + DocThen(d, rest)) == Some((Meaning(d), rest))
    decreases d, 1
  {
    ParseAfterWs(ws, DocThen(d, rest));
    hide ParseValue, ParseMembers, ParseItems, Terminated, DocThen;
    match d
    case ArrayDoc(items) =>
      OpenArray(items, rest);
      ItemsRead(items, [], rest);
      assert [] + ItemsMeaning(items) == ItemsMeaning(items);
    case ObjectDoc(ms) =>
      OpenObject(ms, rest);
      MembersRead(ms, map[], rest);
    case _ => LeafRead(d, rest);
  }

  lemma OpenArray(items: Items, rest: string)
    requires ValidItems(items)
    ensures ParseValue(DocThen(ArrayDoc(items), rest)) == ParseItems(ItemsThen(items, rest), [])
  {
    hide ParseMembers, ParseItems, SkipWs, Consume, ItemsThen;
    FirstByte(ArrayDoc(items), rest);
    Cons('[', ItemsThen(items, rest));
    ItemsNotClosed(items, rest);
  }

  lemma OpenObject(ms: Members, rest: string)
    requires ValidMembers(ms)
    ensures ParseValue(DocThen(ObjectDoc(ms), rest)) == ParseMembers(MembersThen(ms, rest), map[])
  {
    hide ParseMembers, ParseItems, SkipWs, Consume, MembersThen;
    FirstByte(ObjectDoc(ms), rest);
    Cons('{', MembersThen(ms, rest));
    MembersNotClosed(ms, rest);
  }

  lemma ItemsNotClosed(items: Items, rest: string)
    requires ValidItems(items)
    ensures Consume(']', ItemsThen(items, rest)).None?
  {
    var tail := if items.LastItem? then items.after + ([']'] + rest) else items.after + ([','] + ItemsThen(items.more, rest));
    assert ItemsThen(items, rest) == items.before + DocThen(items.doc, tail);
    WsSkipped(items.before, DocThen(items.doc, tail));
    FirstByte(items.doc, tail);
    hide ItemsThen, DocThen, SkipWs, ValidDoc;
  }

  lemma MembersNotClosed(ms: Members, rest: string)
    requires ValidMembers(ms)
    ensures Consume('}', MembersThen(ms, rest)).None?
  {
    var m := ms.m;
    var tail := if ms.LastMember? then ['}'] + rest else [','] + MembersThen(ms.more, rest);
    var s := StringThen(m.key, m.afterKey + ([':'] + (m.beforeValue + DocThen(m.doc, m.after + tail))));
    assert MembersThen(ms, rest) == m.before + s;
    assert s[0] == '"';
    WsSkipped(m.before, s);
    hide MembersThen, StringThen, ValidDoc;
  }

  lemma TerminatedBy(ws: string, c: char, rest: string)
    requires AllWs(ws) && c in {',', ']', '}'}
    ensures Terminated(ws + ([c] + rest))
  {
  }

  lemma {:induction false} ItemsRead(items: Items, read: seq<Json>, rest: string)
    requires ValidItems(items)
    ensures ParseItems(ItemsThen(items, rest), read) == Some((Arr(read + ItemsMeaning(items)), rest))
    decreases items, 0
  {
    hide ParseValue, Consume, Terminated, DocThen, AllWs, ValidDoc, Meaning;
    var c := if items.LastItem? then ']' else ',';
    var more := if items.LastItem? then rest else ItemsThen(items.more, rest);
    TerminatedBy(items.after, c, more);
    ValueRead(items.before, items.doc, items.after + ([c] + more));
    WsMarks(c);
    ConsumeRead(items.after, c, more);
    if items.LastItem? {
      assert ItemsMeaning(items) == [Meaning(items.doc)];
    } else {
      ItemsRead(items.more, read + [Meaning(items.doc)], rest);
      assert read + [Meaning(items.doc)] + ItemsMeaning(items.more) == read + ItemsMeaning(items);
    }
  }

  lemma WsMarks(c: char)
    requires c in {',', ']', '}', ':', '"'}
    ensures !IsWs(c)
  {
  }

  lemma {:induction false} MemberRead(m: Member, tail: string)
    requires ValidMember(m) && Terminated(m.after + tail)
    ensures ParseMember(MemberThen(m, tail)) == Some(((StringBytes(m.key), Meaning(m.doc)), m.after + tail))
    decreases m, 0
  {
    hide ParseValue, ParseString, Consume, Terminated, DocThen, AllWs, ValidDoc, Meaning, ValidPieces, BodyThen;
    var v := m.beforeValue + DocThen(m.doc, m.after + tail);
    var s := StringThen(m.key, m.afterKey + ([':'] + v));
    WsSkipped(m.before, s);
    assert SkipWs(s) == s;
    StringRead(m.key, m.afterKey + ([':'] + v));
    WsMarks(':');
    ConsumeRead(m.afterKey, ':', v);
    hide SkipWs, StringThen;
    ValueRead(m.beforeValue, m.doc, m.after + tail);
  }

  lemma {:induction false} MembersRead(ms: Members, read: map<string, Json>, rest: string)
    requires ValidMembers(ms)
    ensures ParseMembers(MembersThen(ms, rest), read) == Some((Obj(MembersMeaning(ms, read)), rest))
    decreases ms, 0
  {
    hide ParseMember, Consume, Terminated, MemberThen, Meaning, ValidPieces, AllWs;
    var c := if ms.LastMember? then '}' else ',';
    var more := if ms.LastMember? then rest else MembersThen(ms.more, rest);
    TerminatedBy(ms.m.after, c, more);
    MemberRead(ms.m, [c] + more);
    WsMarks(c);
    ConsumeRead(ms.m.after, c, more);
    if ms.MoreMembers? {
      MembersRead(ms.more, Assigned(ms.m, read), rest);
    }
  }

  // ----- Whatever parses was printed -----

  lemma {:induction false} WsTaken(s: string) returns (ws: string)
    ensures AllWs(ws) && s == ws + SkipWs(s)
    decreases |s|
  {
    if s != "" && IsWs(s[0]) {
      var more := WsTaken(s[1..]);
      Uncons(s);
      ws := [s[0]] + more;
    } else {
      ws := "";
    }
  }

  lemma ConsumeWritten(c: char, s: string) returns (ws: string)
    requires Consume(c, s).Some?
    ensures AllWs(ws) && s == ws + ([c] + Consume(c, s).value)
  {
    ws := WsTaken(s);
    Uncons(SkipWs(s));
    hide SkipWs;
  }

  lemma LiteralWritten(literal: string, v: Json, s: string)
    requires ParseLiteral(literal, v, s).Some?
    ensures ParseLiteral(literal, v, s).value.0 == v && s == literal + ParseLiteral(literal, v, s).value.1
  {
  }

  lemma LeafWritten(t: string) returns (d: Doc)
    requires SkipWs(t) == t && ParseValue(t).Some? && t[0] != '{' && t[0] != '['
    ensures ValidDoc(d) && t == DocThen(d, ParseValue(t).value.1) && Meaning(d) == ParseValue(t).value.0
  {
    hide ParseString, ParseNumber, ParseLiteral, BodyThen, NumberThen, ValidNumber, SkipWs, ValidPieces;
    if t[0] == '"' {
      var ps := StringWritten(t);
      d := StringDoc(ps);
    } else if t[0] == 't' {
      LiteralWritten("true", Bool(true), t);
      d := BoolDoc(true);
    } else if t[0] == 'f' {
      LiteralWritten("false", Bool(false), t);
      d := BoolDoc(false);
    } else if t[0] == 'n' {
      LiteralWritten("null", Null, t);
      d := NullDoc;
    } else {
      var n := NumberWritten(t);
      d := NumberDoc(n);
    }
  }

  lemma {:induction false} ValueWritten(s: string) returns (ws: string, d: Doc)
    requires ParseValue(s).Some?
    ensures AllWs(ws) && ValidDoc(d) && s == ws + DocThen(d, ParseValue(s).value.1)
    ensures Meaning(d) == ParseValue(s).value.0
    decreases |s|, 2
  {
    ws := WsTaken(s);
    var t := SkipWs(s);
    ValueAfterWs(s);
    Uncons(t);
    if t[0] == '[' {
      hide ParseItems, Consume, SkipWs, ItemsThen;
      d := ArrayWritten(t[1..]);
    } else if t[0] == '{' {
      hide ParseMembers, Consume, SkipWs, MembersThen;
      d := ObjectWritten(t[1..]);
    } else {
      hide ParseValue, DocThen, Meaning, ValidDoc;
      d := LeafWritten(t);
    }
  }

  lemma {:induction false} ArrayWritten(s: string) returns (d: Doc)
    requires ParseArray(s).Some?
    ensures ValidDoc(d) && ['['] + s == DocThen(d, ParseArray(s).value.1) && Meaning(d) == ParseArray(s).value.0
    decreases |s|, 4
  {
    hide ParseItems, Consume, ItemsThen;
    if Consume(']', s).Some? {
      var inside := ConsumeWritten(']', s);
      d := EmptyArray(inside);
    } else {
      var items := ItemsWritten(s, []);
      d := ArrayDoc(items);
      assert [] + ItemsMeaning(items) == ItemsMeaning(items);
    }
  }

  lemma {:induction false} ObjectWritten(s: string) returns (d: Doc)
    requires ParseObject(s).Some?
    ensures ValidDoc(d) && ['{'] + s == DocThen(d, ParseObject(s).value.1) && Meaning(d) == ParseObject(s).value.0
    decreases |s|, 4
  {
    hide ParseMembers, Consume, MembersThen;
    if Consume('}', s).Some? {
      var inside := ConsumeWritten('}', s);
      d := EmptyObject(inside);
    } else {
      var members := MembersWritten(s, map[]);
      d := ObjectDoc(members);
    }
  }

  lemma {:induction false} ItemsWritten(s: string, read: seq<Json>) returns (items: Items)
    requires ParseItems(s, read).Some?
    ensures ValidItems(items) && s == ItemsThen(items, ParseItems(s, read).value.1)
    ensures ParseItems(s, read).value.0 == Arr(read + ItemsMeaning(items))
    decreases |s|, 3
  {
    hide ParseValue, Consume, DocThen, AllWs, ValidDoc, Meaning;
    var (v, rest) := ParseValue(s).value;
    var before, doc := ValueWritten(s);
    if Consume(']', rest).Some? {
      var after := ConsumeWritten(']', rest);
      items := LastItem(before, doc, after);
      assert ItemsMeaning(items) == [v];
    } else {
      var after := ConsumeWritten(',', rest);
      var more := ItemsWritten(Consume(',', rest).value, read + [v]);
      items := MoreItems(before, doc, after, more);
      assert read + [v] + ItemsMeaning(more) == read + ItemsMeaning(items);
    }
  }

  lemma {:induction false} MemberWritten(s: string) returns (before: string, key: seq<Piece>, afterKey: string, beforeValue: string, doc: Doc)
    requires ParseMember(s).Some?
    ensures forall after: string, tail: string {:trigger Member(before, key, afterKey, beforeValue, doc, after), after + tail} ::
      AllWs(after) && ParseMember(s).value.1 == after + tail ==>
        var m := Member(before, key, afterKey, beforeValue, doc, after);
        ValidMember(m) && s == MemberThen(m, tail)
    ensures ValidPieces(key) && ValidDoc(doc)
    ensures (StringBytes(key), Meaning(doc)) == ParseMember(s).value.0
    decreases |s|, 2
  {
    hide ParseValue, ParseString, Consume, DocThen, AllWs, ValidDoc, Meaning, ValidPieces, StringThen, SkipWs;
    before := WsTaken(s);
    var t := SkipWs(s);
    key := StringWritten(t);
    var s1 := ParseString(t).value.1;
    afterKey := ConsumeWritten(':', s1);
    var s2 := Consume(':', s1).value;
    MemberShorter(s);
    beforeValue, doc := ValueWritten(s2);
  }

  lemma MemberShorter(s: string)
    ensures |SkipWs(s)| <= |s|
  {
  }

  lemma {:induction false} MembersWritten(s: string, read: map<string, Json>) returns (ms: Members)
    requires ParseMembers(s, read).Some?
    ensures ValidMembers(ms) && s == MembersThen(ms, ParseMembers(s, read).value.1)
    ensures ParseMembers(s, read).value.0 == Obj(MembersMeaning(ms, read))
    decreases |s|, 3
  {
    hide ParseMember, Consume, MemberThen, AllWs, ValidMember, Meaning;
    var ((k, v), rest) := ParseMember(s).value;
    var before, key, afterKey, beforeValue, doc := MemberWritten(s);
    if Consume('}', rest).Some? {
      var after := ConsumeWritten('}', rest);
      var m := Member(before, key, afterKey, beforeValue, doc, after);
      ms := LastMember(m);
      assert rest == after + (['}'] + Consume('}', rest).value);
    } else {
      var after := ConsumeWritten(',', rest);
      var m := Member(before, key, afterKey, beforeValue, doc, after);
      var tail := [','] + Consume(',', rest).value;
      assert rest == after + tail;
      assert ValidMember(m) && s == MemberThen(m, tail);
      var more := MembersWritten(Consume(',', rest).value, read[k := v]);
      ms := MoreMembers(m, more);
    }
  }

  // ----- The two directions together -----

  /** A text is a tree between whitespace, and the tree denotes the value. */
  predicate Denotes(text: string, before: string, d: Doc, after: string, v: Json) {
    && AllWs(before) && AllWs(after) && ValidDoc(d)
    && text == before + DocThen(d, after) && Meaning(d) == v
  }

  /** The parser returns a value exactly when the text is the printed form, with any
      whitespace, of a tree that denotes it. */
  lemma ParseExactly(text: string, v: Json)
    ensures Parse(text) == Some(v) <==> exists before, d, after :: Denotes(text, before, d, after, v)
  {
    hide ParseValue, DocThen, ValidDoc, Meaning;
    if Parse(text) == Some(v) {
      var rest := ParseValue(text).value.1;
      var before, d := ValueWritten(text);
      var after := WsTaken(rest);
      assert after + "" == after;
      assert Denotes(text, before, d, rest, v);
    }
    if before, d, after :| Denotes(text, before, d, after, v) {
      WsTerminates(after);
      ValueRead(before, d, after);
      WsSkipped(after, "");
      assert after + "" == after;
    }
  }

  lemma WsTerminates(ws: string)
    requires AllWs(ws)
    ensures Terminated(ws)
  {
  }

  // ----- Duplicate keys -----

  function LastAssigned(ms: Members, key: string): Option<Json>
    requires ValidMembers(ms)
  {
    var later := if ms.MoreMembers? then LastAssigned(ms.more, key) else None;
    if later.Some? then later
    else if MemberKey(ms.m) == key then Some(MemberValue(ms.m)) else None
  }

  function MemberKey(m: Member): string
    requires ValidMember(m)
  {
    StringBytes(m.key)
  }

  function MemberValue(m: Member): Json
    requires ValidMember(m)
  {
    Meaning(m.doc)
  }

  /** An object holds exactly the keys written in it, each with the last value written for it. */
  lemma {:induction false} DuplicatesKeepLast(ms: Members, known: map<string, Json>, key: string)
    requires ValidMembers(ms)
    ensures
      var values := MembersMeaning(ms, known);
      match LastAssigned(ms, key)
      case Some(v) => key in values && values[key] == v
      case None => (key in values) == (key in known) && (key in values ==> values[key] == known[key])
    decreases ms
  {
    hide Meaning, ValidMember;
    if ms.MoreMembers? {
      DuplicatesKeepLast(ms.more, Assigned(ms.m, known), key);
    }
  }
}
