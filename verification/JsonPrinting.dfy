/** Strings as bytes: UTF-8 as RFC 3629 defines it, `\u` escapes, the metadata writer's
    escaping, and a printed form for every value tree. */
module JsonPrinting {
  import opened Telemetry
  import opened Text
  import opened Json
  import opened JsonTables
  import opened JsonGrammar

  // ----- UTF-8 (RFC 3629 sections 3 and 4) -----

  predicate Tail(c: char) { 0x80 <= c as int <= 0xBF }

  /** The first character of a UTF-8 string: only shortest forms, no surrogates, nothing above U+10FFFF. */
  function DecodeUtf8(s: string): Option<(nat, string)> {
    if s == "" then None
    else
      var a := s[0] as int;
      if a <= 0x7F then Some((a, s[1..]))
      else if 0xC2 <= a <= 0xDF && |s| >= 2 && Tail(s[1]) then
        Some(((a - 0xC0) * 0x40 + (s[1] as int - 0x80), s[2..]))
      else if 0xE0 <= a <= 0xEF && |s| >= 3 && Tail(s[1]) && Tail(s[2])
              && (a == 0xE0 ==> s[1] as int >= 0xA0) && (a == 0xED ==> s[1] as int <= 0x9F) then
        Some(((a - 0xE0) * 0x1000 + (s[1] as int - 0x80) * 0x40 + (s[2] as int - 0x80), s[3..]))
      else if 0xF0 <= a <= 0xF4 && |s| >= 4 && Tail(s[1]) && Tail(s[2]) && Tail(s[3])
              && (a == 0xF0 ==> s[1] as int >= 0x90) && (a == 0xF4 ==> s[1] as int <= 0x8F) then
        Some(((a - 0xF0) * 0x40000 + (s[1] as int - 0x80) * 0x1000 + (s[2] as int - 0x80) * 0x40 + (s[3] as int - 0x80),
              s[4..]))
      else None
  }

  // Positions in base 64.

  lemma Join2(a: nat, b: nat)
    requires b < 0x40
    ensures (a * 0x40 + b) / 0x40 == a && (a * 0x40 + b) % 0x40 == b
  {
  }

  lemma Join3(a: nat, b: nat, c: nat)
    requires b < 0x40 && c < 0x40
    ensures
      var n := a * 0x1000 + b * 0x40 + c;
      n / 0x1000 == a && n / 0x40 % 0x40 == b && n % 0x40 == c
  {
  }

  lemma Join4(a: nat, b: nat, c: nat, d: nat)
    requires b < 0x40 && c < 0x40 && d < 0x40
    ensures
      var n := a * 0x40000 + b * 0x1000 + c * 0x40 + d;
      n / 0x40000 == a && n / 0x1000 % 0x40 == b && n / 0x40 % 0x40 == c && n % 0x40 == d
  {
    Join3(a * 0x40 + b, c, d);
    Join2(a, b);
    var n := a * 0x40000 + b * 0x1000 + c * 0x40 + d;
    assert n / 0x1000 == a * 0x40 + b;
  }

  lemma Split4(n: nat)
    ensures n == n / 0x40000 * 0x40000 + n / 0x1000 % 0x40 * 0x1000 + n / 0x40 % 0x40 * 0x40 + n % 0x40
    ensures n < 0x40000 ==> n / 0x1000 < 0x40 && n == n / 0x1000 * 0x1000 + n / 0x40 % 0x40 * 0x40 + n % 0x40
    ensures n < 0x1000 ==> n / 0x40 < 0x40
  {
    assert n / 0x1000 == n / 0x40 / 0x40;
    assert n / 0x40000 == n / 0x1000 / 0x40;
  }

  lemma Utf8Decodes2(cp: nat, rest: string)
    requires 0x80 <= cp <= 0x7FF
    ensures DecodeUtf8(Utf8(cp) + rest) == Some((cp, rest))
  {
  }

  lemma Utf8Decodes3(cp: nat, rest: string)
    requires 0x800 <= cp <= 0xFFFF && Scalar(cp)
    ensures DecodeUtf8(Utf8(cp) + rest) == Some((cp, rest))
  {
  }

  lemma Utf8Decodes4(cp: nat, rest: string)
    requires 0x10000 <= cp < 0x110000
    ensures DecodeUtf8(Utf8(cp) + rest) == Some((cp, rest))
  {
    var u := Utf8(cp);
    Split4(cp);
    var a, b, c, d := cp / 0x40000, cp / 0x1000 % 0x40, cp / 0x40 % 0x40, cp % 0x40;
    assert u == [Byte(0xF0 + a), Byte(0x80 + b), Byte(0x80 + c), Byte(0x80 + d)];
    assert a <= 4 && (a == 0 ==> b >= 0x10) && (a == 4 ==> b <= 0xF);
    hide Utf8;
    assert (u + rest)[4..] == rest && (u + rest)[0] == u[0] && (u + rest)[1] == u[1] && (u + rest)[2] == u[2]
           && (u + rest)[3] == u[3];
  }

  /** What is appended for a scalar value decodes to it, whatever follows. */
  lemma Utf8Decodes(cp: nat, rest: string)
    requires Scalar(cp)
    ensures DecodeUtf8(Utf8(cp) + rest) == Some((cp, rest))
  {
    if cp <= 0x7F {
      assert (Utf8(cp) + rest)[1..] == rest;
    } else if cp <= 0x7FF {
      hide DecodeUtf8, Utf8;
      Utf8Decodes2(cp, rest);
    } else if cp <= 0xFFFF {
      hide DecodeUtf8, Utf8;
      Utf8Decodes3(cp, rest);
    } else {
      hide DecodeUtf8, Utf8;
      Utf8Decodes4(cp, rest);
    }
  }

  lemma Utf8Unique2(s: string)
    requires DecodeUtf8(s).Some? && 0xC2 <= s[0] as int <= 0xDF
    ensures var (cp, rest) := DecodeUtf8(s).value; Scalar(cp) && s == Utf8(cp) + rest
  {
  }

  lemma Utf8Unique3(s: string)
    requires DecodeUtf8(s).Some? && 0xE0 <= s[0] as int <= 0xEF
    ensures var (cp, rest) := DecodeUtf8(s).value; Scalar(cp) && s == Utf8(cp) + rest
  {
    Join3(s[0] as int - 0xE0, s[1] as int - 0x80, s[2] as int - 0x80);
    assert s == [s[0], s[1], s[2]] + s[3..];
  }

  lemma Utf8Unique4(s: string)
    requires DecodeUtf8(s).Some? && s[0] as int >= 0xF0
    ensures var (cp, rest) := DecodeUtf8(s).value; Scalar(cp) && s == Utf8(cp) + rest
  {
    Join4(s[0] as int - 0xF0, s[1] as int - 0x80, s[2] as int - 0x80, s[3] as int - 0x80);
    assert s == [s[0], s[1], s[2], s[3]] + s[4..];
  }

  /** And nothing else decodes to it. */
  lemma Utf8Unique(s: string)
    requires DecodeUtf8(s).Some?
    ensures
      var (cp, rest) := DecodeUtf8(s).value;
      Scalar(cp) && s == Utf8(cp) + rest
  {
    var a := s[0] as int;
    if a <= 0x7F {
      Uncons(s);
    } else {
      assert a >= 0xC2;
      hide DecodeUtf8, Utf8;
      if a <= 0xDF {
        Utf8Unique2(s);
      } else if a <= 0xEF {
        Utf8Unique3(s);
      } else {
        Utf8Unique4(s);
      }
    }
  }

  // ----- `\u` escapes (RFC 8259 section 7) -----

  /** A digit in either case. */
  function HexChar(n: nat, upper: bool): (c: char)
    requires n < 16
  {
    if upper then UPPER_DIGITS[n] else LOWER_DIGITS[n]
  }

  /** Four digits, each in the case chosen for it. */
  function HexText(n: nat, upper: seq<bool>): (r: string)
    requires n < 0x10000 && |upper| == 4
  {
    [HexChar(n / 0x1000, upper[0]), HexChar(n / 0x100 % 0x10, upper[1]), HexChar(n / 0x10 % 0x10, upper[2]),
     HexChar(n % 0x10, upper[3])]
  }

  lemma HexCharIs(n: nat, upper: bool)
    requires n < 16
    ensures HexDigit(HexChar(n, upper)) == Some(n)
  {
    RowsAre();
    hide LOWER_DIGITS, UPPER_DIGITS;
    if upper && n >= 10 {
      assert UPPER_DIGITS[n] !in LOWER_DIGITS;
      PositionIs(UPPER_DIGITS, n);
    } else {
      assert HexChar(n, upper) == LOWER_DIGITS[n];
      PositionIs(LOWER_DIGITS, n);
    }
  }

  lemma HexTextValue(n: nat, upper: seq<bool>)
    requires n < 0x10000 && |upper| == 4
    ensures IsFourHex(HexText(n, upper)) && HexNumber(HexText(n, upper)) == n
  {
    var a, b, c, d := n / 0x1000, n / 0x100 % 0x10, n / 0x10 % 0x10, n % 0x10;
    assert n / 0x100 == n / 0x10 / 0x10 && n / 0x1000 == n / 0x100 / 0x10;
    HexCharIs(a, upper[0]);
    HexCharIs(b, upper[1]);
    HexCharIs(c, upper[2]);
    HexCharIs(d, upper[3]);
    hide HexChar, HexDigit;
  }

  /** A scalar value in escaped form: a surrogate pair above U+FFFF. */
  function EscapeOf(cp: nat, upper: seq<bool>): Piece
    requires Scalar(cp) && |upper| == 8
  {
    if cp < 0x10000 then Unicode(HexText(cp, upper[..4]))
    else Pair(HexText(0xD800 + (cp - 0x10000) / 0x400, upper[..4]), HexText(0xDC00 + (cp - 0x10000) % 0x400, upper[4..]))
  }

  lemma EscapeOfValid(cp: nat, upper: seq<bool>)
    requires Scalar(cp) && |upper| == 8
    ensures ValidPiece(EscapeOf(cp, upper)) && PieceBytes(EscapeOf(cp, upper)) == Utf8(cp)
  {
    hide HexText, HexNumber, IsFourHex, Utf8;
    if cp < 0x10000 {
      HexTextValue(cp, upper[..4]);
    } else {
      HexTextValue(0xD800 + (cp - 0x10000) / 0x400, upper[..4]);
      HexTextValue(0xDC00 + (cp - 0x10000) % 0x400, upper[4..]);
    }
  }

  /** Every scalar value, escaped between quotes with any mixture of upper-case and lower-case
      digits, parses to its UTF-8, which decodes back to it. */
  lemma ScalarRoundTrip(cp: nat, upper: seq<bool>, rest: string)
    requires Scalar(cp) && |upper| == 8
    ensures ParseString(StringThen([EscapeOf(cp, upper)], rest)) == Some((Utf8(cp), rest))
    ensures DecodeUtf8(Utf8(cp)) == Some((cp, ""))
  {
    EscapeOfValid(cp, upper);
    var ps := [EscapeOf(cp, upper)];
    hide EscapeOf, ValidPiece, Utf8, DecodeUtf8, StringThen, ParseString;
    StringRead(ps, rest);
    assert StringBytes(ps) == Utf8(cp) + StringBytes([]) == Utf8(cp) by { assert ps[1..] == []; }
    Utf8Decodes(cp, "");
    assert Utf8(cp) + "" == Utf8(cp);
  }

  predicate StartsWithLowEscape(tail: string) {
    |tail| >= 6 && tail[0] == '\\' && tail[1] == 'u' && IsFourHex(tail[2..6]) && 0xDC00 <= HexNumber(tail[2..6]) <= 0xDFFF
  }

  /** Four digits after a backslash and `u` are accepted exactly when they name a scalar value
      or a high surrogate that an escaped low surrogate follows: unpaired surrogates are refused. */
  lemma UnpairedRefused(digits: string, tail: string)
    requires IsFourHex(digits)
    ensures
      var n := HexNumber(digits);
      ParseUnicode(digits + tail).Some? <==> Scalar(n) || (0xD800 <= n <= 0xDBFF && StartsWithLowEscape(tail))
  {
    hide IsFourHex, HexNumber, ParseHex4;
    Hex4Read(digits, tail);
    if |tail| >= 6 {
      LowRead(tail);
    }
  }

  lemma LowRead(tail: string)
    requires |tail| >= 6
    ensures ParseHex4(tail[2..]).Some? <==> IsFourHex(tail[2..6])
    ensures IsFourHex(tail[2..6]) ==> ParseHex4(tail[2..]).value.0 == HexNumber(tail[2..6])
  {
    assert tail[2..][..4] == tail[2..6];
    FourHexExactly(tail[2..6]);
    hide IsFourHex, HexNumber, FourHex, Hex4;
  }

  // ----- The escaping of the metadata writer -----

  function EscapedByte(c: char): string {
    if c == '\\' then "\\\\"
    else if c == '"' then "\\\""
    else if c == '\n' then "\\n"
    else if c == '\r' then "\\r"
    else if c == '\t' then "\\t"
    else if c as int < 0x20 then "?"
    else [c]
  }

  function Escaped(s: string): string {
    if s == "" then "" else Escaped(s[..|s| - 1]) + EscapedByte(s[|s| - 1])
  }

  method JsonEscape(input: string) returns (out: string)
    ensures out == Escaped(input)
  {
    out := "";
    for i := 0 to |input|
      invariant out == Escaped(input[..i])
    {
      assert input[..i + 1][..i] == input[..i];
      match input[i] {
        case '\\' => out := out + "\\\\";
        case '"' => out := out + "\\\"";
        case '\n' => out := out + "\\n";
        case '\r' => out := out + "\\r";
        case '\t' => out := out + "\\t";
        case ch => out := out + (if ch as int < 0x20 then "?" else [ch]);
      }
    }
    assert input[..|input|] == input;
  }

  /** Control bytes other than tab, line feed and carriage return become question marks. */
  function Sanitized(c: char): char {
    if c as int < 0x20 && c !in {'\t', '\n', '\r'} then '?' else c
  }

  function EscapedPiece(c: char): Piece {
    if c == '\\' || c == '"' then Short(c)
    else if c == '\n' then Short('n')
    else if c == '\r' then Short('r')
    else if c == '\t' then Short('t')
    else Raw(Sanitized(c))
  }

  lemma ShortFacts(e: char, byte: char, rest: string)
    requires e in ESCAPES && ESCAPES[e] == byte as int
    ensures ValidPiece(Short(e)) && PieceBytes(Short(e)) == [byte]
    ensures ['\\', e] + rest == PieceThen(Short(e), rest)
  {
    assert ['\\', e] + rest == ['\\'] + ([e] + rest);
    hide ESCAPES;
  }

  lemma EscapedPieceFacts(c: char, rest: string)
    ensures ValidPiece(EscapedPiece(c)) && PieceBytes(EscapedPiece(c)) == [Sanitized(c)]
    ensures EscapedByte(c) + rest == PieceThen(EscapedPiece(c), rest)
  {
    if EscapedPiece(c).Short? {
      var e := EscapedPiece(c).e;
      assert e in ESCAPES && ESCAPES[e] == c as int;
      ShortFacts(e, c, rest);
      assert EscapedByte(c) == ['\\', e];
      hide ESCAPES, ValidPiece, PieceBytes, PieceThen, EscapedByte;
    } else {
      hide ESCAPES;
    }
  }

  function SanitizedText(s: string): (r: string)
    ensures |r| == |s| && forall k :: 0 <= k < |s| ==> r[k] == Sanitized(s[k])
  {
    seq(|s|, k requires 0 <= k < |s| => Sanitized(s[k]))
  }

  lemma {:induction false} EscapedFront(s: string)
    requires s != ""
    ensures Escaped(s) == EscapedByte(s[0]) + Escaped(s[1..])
  {
    hide EscapedByte;
    if |s| == 1 {
      assert s[..0] == "" && s[1..] == "";
    } else {
      var init, tail := s[..|s| - 1], s[1..];
      assert init[1..] == tail[..|tail| - 1] && init[0] == s[0];
      EscapedFront(init);
      assert tail[|tail| - 1] == s[|s| - 1];
    }
  }

  lemma {:induction false} EscapedIsPrinted(s: string, rest: string) returns (ps: seq<Piece>)
    ensures ValidPieces(ps) && StringBytes(ps) == SanitizedText(s)
    ensures Escaped(s) + (['"'] + rest) == BodyThen(ps, rest)
    decreases |s|
  {
    hide EscapedByte, EscapedPiece, PieceThen, ValidPiece, PieceBytes, Sanitized, Escaped;
    if s == "" {
      ps := [];
      assert Escaped(s) == "" by { EmptyEscaped(); }
      assert "" + (['"'] + rest) == ['"'] + rest;
    } else {
      var more := EscapedIsPrinted(s[1..], rest);
      ps := [EscapedPiece(s[0])] + more;
      assert ps[1..] == more;
      EscapedFront(s);
      var tail := Escaped(s[1..]) + (['"'] + rest);
      EscapedPieceFacts(s[0], tail);
      assert Escaped(s) + (['"'] + rest) == EscapedByte(s[0]) + tail;
      assert SanitizedText(s) == [Sanitized(s[0])] + SanitizedText(s[1..]);
    }
  }

  lemma EmptyEscaped()
    ensures Escaped("") == ""
  {
  }

  /** Text escaped for the metadata file reads back as itself, but for control bytes. */
  lemma EscapedReadsBack(s: string, rest: string)
    ensures ParseString(['"'] + (Escaped(s) + (['"'] + rest))) == Some((SanitizedText(s), rest))
  {
    hide ParseString, Escaped, ValidPiece;
    var ps := EscapedIsPrinted(s, rest);
    StringRead(ps, rest);
  }

  // ----- Every value tree can be printed -----

  predicate Bytes(s: string) { forall c :: c in s ==> c as int < 0x100 }

  /** Objects, arrays, byte strings, `int64_t` integers, booleans and null. */
  predicate Tree(v: Json) {
    match v
    case Int(i) => INT64_MIN <= i <= INT64_MAX
    case Double(_) => false
    case Str(s) => Bytes(s)
    case Arr(items) => forall k :: 0 <= k < |items| ==> Tree(items[k])
    case Obj(values) => forall k :: k in values ==> Bytes(k) && Tree(values[k])
    case _ => true
  }

  lemma BytePiece(c: char) returns (p: Piece)
    requires c as int < 0x100
    ensures ValidPiece(p) && PieceBytes(p) == [c]
  {
    if c == '"' || c == '\\' {
      p := Short(c);
    } else if c as int < 0x20 {
      var lower := seq(8, _ => false);
      p := EscapeOf(c as int, lower);
      EscapeOfValid(c as int, lower);
      hide EscapeOf, ValidPiece, PieceBytes;
    } else {
      p := Raw(c);
    }
  }

  lemma {:induction false} PrintString(s: string) returns (ps: seq<Piece>)
    requires Bytes(s)
    ensures ValidPieces(ps) && StringBytes(ps) == s
    decreases |s|
  {
    hide ValidPiece, PieceBytes;
    if s == "" {
      ps := [];
    } else {
      assert s[0] in s;
      assert forall c :: c in s[1..] ==> c in s;
      var more := PrintString(s[1..]);
      var p := BytePiece(s[0]);
      ps := [p] + more;
      assert ps[1..] == more;
    }
  }

  lemma WholeDenotes(minus: bool, whole: string)
    requires Canonical(whole)
    ensures
      var n, i := Number(minus, whole, None, None), (if minus then -(DigitsValue(whole) as int) else DigitsValue(whole));
      WellFormed(n) && (INT64_MIN <= i <= INT64_MAX ==> Denoted(n) == Some(Int(i)))
  {
    hide DigitsValue, InDoubleRange, NumberThen, AllDigits;
  }

  lemma PrintInt(i: int) returns (n: Number)
    requires INT64_MIN <= i <= INT64_MAX
    ensures ValidNumber(n) && Denoted(n) == Some(Int(i))
  {
    hide NatText, DigitsValue, AllDigits, WellFormed, Denoted, Canonical;
    var m: nat := if i < 0 then -i else i;
    n := Number(i < 0, NatText(m), None, None);
    NatTextCanonical(m);
    NatTextValue(m);
    WholeDenotes(i < 0, NatText(m));
  }

  /** Every value tree is denoted by some printed tree, so by ParseExactly it is parsed back. */
  lemma {:induction false} PrintTree(v: Json) returns (d: Doc)
    requires Tree(v)
    ensures ValidDoc(d) && Meaning(d) == v
    decreases v, 1, 0
  {
    hide ValidNumber, ValidPieces, NumberThen, Denoted;
    match v
    case Null => d := NullDoc;
    case Bool(b) => d := BoolDoc(b);
    case Int(i) =>
      var n := PrintInt(i);
      d := NumberDoc(n);
    case Str(s) =>
      var ps := PrintString(s);
      d := StringDoc(ps);
    case Arr(items) =>
      d := PrintArray(v);
    case Obj(values) =>
      d := PrintObject(v);
  }

  lemma {:induction false} PrintArray(v: Json) returns (d: Doc)
    requires Tree(v) && v.Arr?
    ensures ValidDoc(d) && Meaning(d) == v
    decreases v, 0, |v.items| + 1
  {
    hide Tree, ValidItems, ItemsMeaning;
    if v.items == [] {
      d := EmptyArray("");
    } else {
      var printed := PrintItems(v, 0);
      d := ArrayDoc(printed);
      assert v.items[0..] == v.items;
    }
  }

  lemma {:induction false} PrintObject(v: Json) returns (d: Doc)
    requires Tree(v) && v.Obj?
    ensures ValidDoc(d) && Meaning(d) == v
    decreases v, 0, |v.values| + 1
  {
    hide Tree, ValidMembers, MembersMeaning, ValidMember, ItemsMeaning, StringBytes, Denoted, ValidPieces;
    if v.values == map[] {
      d := EmptyObject("");
    } else {
      var printed := PrintMembers(v, v.values, map[]);
      d := ObjectDoc(printed);
      assert map[] + v.values == v.values;
    }
  }

  lemma {:induction false} PrintItems(v: Json, k: nat) returns (items: Items)
    requires Tree(v) && v.Arr? && k < |v.items|
    ensures ValidItems(items) && ItemsMeaning(items) == v.items[k..]
    decreases v, 0, |v.items| - k
  {
    hide ValidDoc, Meaning;
    var d := PrintTree(v.items[k]);
    if k + 1 == |v.items| {
      items := LastItem("", d, "");
    } else {
      var more := PrintItems(v, k + 1);
      items := MoreItems("", d, "", more);
    }
    assert v.items[k..] == [v.items[k]] + v.items[k + 1..];
  }

  lemma {:induction false} PrintMembers(v: Json, left: map<string, Json>, known: map<string, Json>) returns (ms: Members)
    requires Tree(v) && v.Obj? && left != map[]
    requires forall k :: k in left ==> k in v.values && left[k] == v.values[k]
    ensures ValidMembers(ms) && MembersMeaning(ms, known) == known + left
    decreases v, 0, |left|
  {
    hide ValidDoc, Meaning, ValidPieces, Tree;
    var k :| k in left;
    TreeMember(v, k);
    var key := PrintString(k);
    var d := PrintTree(v.values[k]);
    var m := Member("", key, "", "", d, "");
    SplitMap(known, left, k);
    assert ValidMember(m) && Assigned(m, known) == known[k := left[k]];
    if left - {k} == map[] {
      ms := LastMember(m);
    } else {
      var more := PrintMembers(v, left - {k}, known[k := left[k]]);
      ms := MoreMembers(m, more);
    }
  }

  lemma TreeMember(v: Json, k: string)
    requires Tree(v) && v.Obj? && k in v.values
    ensures Bytes(k) && Tree(v.values[k])
  {
  }

  lemma SplitMap(known: map<string, Json>, left: map<string, Json>, k: string)
    requires k in left
    ensures known[k := left[k]] + (left - {k}) == known + left
    ensures |left - {k}| < |left|
    ensures left - {k} == map[] ==> known[k := left[k]] == known + left
  {
    MergeKey(known, left, k);
    var others := left - {k};
    assert others.Keys == left.Keys - {k};
    assert |others.Keys| < |left.Keys|;
    var next := known[k := left[k]];
    assert next + map[] == next;
  }

  lemma MergeKey(known: map<string, Json>, left: map<string, Json>, k: string)
    requires k in left
    ensures known[k := left[k]] + (left - {k}) == known + left
  {
  }

  lemma TreesParseBack(v: Json)
    requires Tree(v)
    ensures exists d :: ValidDoc(d) && Meaning(d) == v && forall before, after :: AllWs(before) && AllWs(after) ==>
      Parse(before + DocThen(d, after)) == Some(v)
  {
    var d := PrintTree(v);
    hide ValidDoc, Meaning, DocThen, Parse, AllWs;
    forall before, after | AllWs(before) && AllWs(after) ensures Parse(before + DocThen(d, after)) == Some(v) {
      var text := before + DocThen(d, after);
      ParseExactly(text, v);
      assert Denotes(text, before, d, after, v);
    }
  }
}
