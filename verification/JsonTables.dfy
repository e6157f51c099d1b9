/** The tables of RFC 8259: which bytes are blank, which digits have which value, which
    escapes stand for which byte. The parser's own conditions are proved to be these. */
module JsonTables {
  import opened Telemetry
  import opened Text
  import opened Json

  // ----- Whitespace (section 2) -----

  /** Space, tab, line feed, carriage return. */
  predicate Blank(c: char) { c as int in {0x20, 0x09, 0x0A, 0x0D} }

  lemma BlankExactly(c: char)
    ensures IsWs(c) <==> Blank(c)
  {
  }

  // ----- Digits (sections 6 and 7) -----

  const DECIMAL_DIGITS := "0123456789"
  const LOWER_DIGITS := "0123456789abcdef"
  const UPPER_DIGITS := "0123456789ABCDEF"

  /** Where a byte first stands in a row of digits. */
  function Position(c: char, row: string): (r: Option<nat>)
    ensures r.Some? ==> r.value < |row| && row[r.value] == c
    ensures r.None? <==> c !in row
  {
    if row == "" then None
    else if row[0] == c then Some(0)
    else match Position(c, row[1..]) case Some(k) => Some(k + 1) case None => None
  }

  /** The value of a hexadecimal digit of either case is its position. */
  function HexDigit(c: char): Option<nat> {
    var lower := Position(c, LOWER_DIGITS);
    if lower.Some? then lower else Position(c, UPPER_DIGITS)
  }

  lemma {:induction false} PositionIs(row: string, k: nat)
    requires k < |row| && forall j :: 0 <= j < k ==> row[j] != row[k]
    ensures Position(row[k], row) == Some(k)
    decreases |row|
  {
    if k > 0 {
      assert row[0] != row[k];
      PositionIs(row[1..], k - 1);
    }
  }

  lemma RowsAre()
    ensures |DECIMAL_DIGITS| == 10 && |LOWER_DIGITS| == 16 && |UPPER_DIGITS| == 16
    ensures forall k :: 0 <= k < 10 ==> DECIMAL_DIGITS[k] as int == 0x30 + k
    ensures forall k :: 0 <= k < 16 ==> LOWER_DIGITS[k] as int == if k < 10 then 0x30 + k else 0x61 + (k - 10)
    ensures forall k :: 0 <= k < 16 ==> UPPER_DIGITS[k] as int == if k < 10 then 0x30 + k else 0x41 + (k - 10)
  {
  }

  lemma HexDigitExactly(c: char)
    ensures HexValue(c) == HexDigit(c)
  {
    RowsAre();
    hide LOWER_DIGITS, UPPER_DIGITS;
    match HexValue(c) {
      case Some(n) =>
        assert LOWER_DIGITS[n] == c || UPPER_DIGITS[n] == c;
        if LOWER_DIGITS[n] == c {
          PositionIs(LOWER_DIGITS, n);
        } else {
          assert c !in LOWER_DIGITS;
          PositionIs(UPPER_DIGITS, n);
        }
      case None =>
        assert c !in LOWER_DIGITS && c !in UPPER_DIGITS;
    }
  }

  /** A decimal digit is a byte of the row, and its value is its position. */
  lemma DigitExactly(c: char)
    ensures IsDigit(c) <==> c in DECIMAL_DIGITS
    ensures IsDigit(c) ==> DECIMAL_DIGITS[Digit(c)] == c
  {
    RowsAre();
    hide DECIMAL_DIGITS;
    if IsDigit(c) {
      assert DECIMAL_DIGITS[Digit(c)] == c;
    }
  }

  predicate IsFourHex(s: string) { |s| == 4 && forall k :: 0 <= k < 4 ==> HexDigit(s[k]).Some? }

  /** Four digits, most significant first. */
  function HexNumber(s: string): nat
    requires IsFourHex(s)
  {
    0x1000 * HexDigit(s[0]).value + 0x100 * HexDigit(s[1]).value + 0x10 * HexDigit(s[2]).value + HexDigit(s[3]).value
  }

  lemma FourHexExactly(s: string)
    ensures FourHex(s) <==> IsFourHex(s)
    ensures FourHex(s) ==> Hex4(s) == HexNumber(s)
  {
    hide HexDigit, HexValue;
    if |s| == 4 {
      HexDigitExactly(s[0]);
      HexDigitExactly(s[1]);
      HexDigitExactly(s[2]);
      HexDigitExactly(s[3]);
    }
  }

  // ----- Single-byte escapes (section 7) -----

  const ESCAPES: map<char, int> :=
    map['"' := 0x22, '\\' := 0x5C, '/' := 0x2F, 'b' := 0x08, 'f' := 0x0C, 'n' := 0x0A, 'r' := 0x0D, 't' := 0x09]

  lemma EscapeExactly(e: char)
    ensures ShortEscape(e).Some? <==> e in ESCAPES
    ensures e in ESCAPES ==> ShortEscape(e).value as int == ESCAPES[e]
  {
  }
}
