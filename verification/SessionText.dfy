/** The text formats of a recorded session: lines, tab-separated fields and the
    conversions of the standard library that read numbers back. */
module SessionText {
  import opened Telemetry
  import opened Text

  // ----- Numbers read back -----

  const U64 := 0x1_0000_0000_0000_0000

  predicate IsSpace(c: char) { c == ' ' || 9 <= c as int <= 13 }

  function SkipSpace(s: string): string {
    if s != "" && IsSpace(s[0]) then SkipSpace(s[1..]) else s
  }

  /** The longest prefix of digits. */
  function DigitPrefix(s: string): (r: string)
    ensures AllDigits(r)
  {
    if s != "" && IsDigit(s[0]) then [s[0]] + DigitPrefix(s[1..]) else ""
  }

  /** Optional space, an optional sign and digits; whatever follows is ignored. */
  function Magnitude(s: string): Option<(bool, nat)> {
    var t := SkipSpace(s);
    var signed := t != "" && (t[0] == '-' || t[0] == '+');
    var digits := DigitPrefix(if signed then t[1..] else t);
    if digits == "" then None else Some((signed && t[0] == '-', DigitsValue(digits)))
  }

  /** `std::stoull`; a negative number wraps, too large a one throws. */
  function Stoull(s: string): (r: Option<nat>)
    ensures r.Some? ==> r.value < U64
  {
    match Magnitude(s)
    case None => None
    case Some((negative, v)) => if v >= U64 then None else Some(if negative then (U64 - v) % U64 else v)
  }

  /** `std::stoi`. */
  function Stoi(s: string): (r: Option<int>)
    ensures r.Some? ==> INT_MIN <= r.value <= INT_MAX
  {
    match Magnitude(s)
    case None => None
    case Some((negative, v)) =>
      var i := if negative then 0 - v else v;
      if INT_MIN <= i <= INT_MAX then Some(i) else None
  }

  lemma {:induction false} DigitPrefixAll(s: string)
    requires AllDigits(s)
    ensures DigitPrefix(s) == s
    decreases |s|
  {
    if s != "" {
      assert s[0] in s;
      assert forall c :: c in s[1..] ==> c in s;
      DigitPrefixAll(s[1..]);
    }
  }

  lemma MagnitudeReads(n: nat)
    ensures Magnitude(NatText(n)) == Some((false, n))
    ensures Magnitude("-" + NatText(n)) == Some((true, n))
  {
    NatTextValue(n);
    MagnitudeOfDigits(NatText(n));
    hide NatText, DigitsValue, Magnitude;
  }

  lemma MagnitudeOfDigits(digits: string)
    requires digits != "" && AllDigits(digits)
    ensures Magnitude(digits) == Some((false, DigitsValue(digits)))
    ensures Magnitude("-" + digits) == Some((true, DigitsValue(digits)))
  {
    hide DigitsValue, DigitPrefix;
    DigitPrefixAll(digits);
    assert IsDigit(digits[0]) by { assert digits[0] in digits; }
    assert SkipSpace(digits) == digits;
    var signed := "-" + digits;
    assert signed[0] == '-' && signed[1..] == digits;
    assert SkipSpace(signed) == signed;
    hide SkipSpace, AllDigits;
  }

  lemma StoullReads(n: nat)
    requires n < U64
    ensures Stoull(NatText(n)) == Some(n)
  {
    MagnitudeReads(n);
    hide NatText, Magnitude;
  }

  lemma StoiReads(i: int)
    requires INT_MIN <= i <= INT_MAX
    ensures Stoi(IntText(i)) == Some(i)
  {
    MagnitudeReads(if i < 0 then -i else i);
    hide NatText, Magnitude;
  }

  // What the conversions read, for every text.

  /** A text that starts with a number: space, a sign or none, all digits there are. */
  predicate StartsWithNumber(s: string, space: string, sign: string, digits: string, tail: string) {
    && s == space + (sign + (digits + tail))
    && (forall c :: c in space ==> c as int in {0x20, 0x09, 0x0A, 0x0B, 0x0C, 0x0D})
    && sign in {"", "+", "-"}
    && digits != "" && AllDigits(digits) && (tail == "" || !IsDigit(tail[0]))
  }

  lemma {:induction false} SpaceSkipped(space: string, s: string)
    requires forall c :: c in space ==> IsSpace(c)
    requires s != "" && !IsSpace(s[0])
    ensures SkipSpace(space + s) == s
    decreases |space|
  {
    if space == "" {
      assert space + s == s;
    } else {
      assert (space + s)[1..] == space[1..] + s && (space + s)[0] == space[0] && space[0] in space;
      assert forall c :: c in space[1..] ==> c in space;
      SpaceSkipped(space[1..], s);
    }
  }

  lemma {:induction false} DigitsPrefixed(digits: string, tail: string)
    requires AllDigits(digits) && (tail == "" || !IsDigit(tail[0]))
    ensures DigitPrefix(digits + tail) == digits
    decreases |digits|
  {
    if digits == "" {
      assert digits + tail == tail;
    } else {
      assert (digits + tail)[1..] == digits[1..] + tail && (digits + tail)[0] == digits[0] && digits[0] in digits;
      assert forall c :: c in digits[1..] ==> c in digits;
      DigitsPrefixed(digits[1..], tail);
    }
  }

  lemma SignTaken(sign: string, d: string)
    requires sign in {"", "+", "-"} && d != "" && IsDigit(d[0])
    ensures
      var t := sign + d;
      var signed := t != "" && (t[0] == '-' || t[0] == '+');
      && t != "" && !IsSpace(t[0]) && (if signed then t[1..] else t) == d && ((signed && t[0] == '-') <==> sign == "-")
  {
    var t := sign + d;
    if sign == "" {
      assert t == d;
    } else {
      assert t[0] == sign[0] && t[1..] == d;
      assert sign == [sign[0]];
    }
  }

  lemma MagnitudeIs(s: string, space: string, sign: string, digits: string, tail: string)
    requires StartsWithNumber(s, space, sign, digits, tail)
    ensures AllDigits(digits) && Magnitude(s) == Some((sign == "-", DigitsValue(digits)))
  {
    var d := digits + tail;
    assert d[0] == digits[0] && digits[0] in digits;
    SignTaken(sign, d);
    SpaceSkipped(space, sign + d);
    DigitsPrefixed(digits, tail);
    hide SkipSpace, DigitPrefix, DigitsValue, IsSpace, AllDigits;
  }

  lemma {:induction false} SpaceTaken(s: string) returns (space: string)
    ensures s == space + SkipSpace(s) && forall c :: c in space ==> IsSpace(c)
    decreases |s|
  {
    space := "";
    if s != "" && IsSpace(s[0]) {
      var more := SpaceTaken(s[1..]);
      space := [s[0]] + more;
      assert s == [s[0]] + s[1..];
    }
  }

  lemma {:induction false} DigitsLeft(s: string) returns (tail: string)
    ensures s == DigitPrefix(s) + tail && (tail == "" || !IsDigit(tail[0]))
    decreases |s|
  {
    tail := s;
    if s != "" && IsDigit(s[0]) {
      tail := DigitsLeft(s[1..]);
      assert s == [s[0]] + s[1..];
    }
  }

  lemma NumberFound(s: string) returns (space: string, sign: string, digits: string, tail: string)
    requires Magnitude(s).Some?
    ensures StartsWithNumber(s, space, sign, digits, tail)
  {
    space := SpaceTaken(s);
    var t := SkipSpace(s);
    var signed := t != "" && (t[0] == '-' || t[0] == '+');
    sign := if signed then [t[0]] else "";
    var d := if signed then t[1..] else t;
    digits := DigitPrefix(d);
    tail := DigitsLeft(d);
    assert t == sign + d;
    hide SkipSpace, DigitPrefix;
  }

  /** `std::stoull` succeeds exactly on a text that starts with a number below 2^64; a minus
      sign negates the number modulo 2^64. */
  lemma StoullExactly(s: string, n: nat)
    ensures Stoull(s) == Some(n) <==>
      exists space, sign, digits, tail :: StartsWithNumber(s, space, sign, digits, tail) && DigitsValue(digits) < U64
        && n == if sign == "-" && DigitsValue(digits) > 0 then U64 - DigitsValue(digits) else DigitsValue(digits)
  {
    hide StartsWithNumber, Magnitude, DigitsValue;
    if Magnitude(s).Some? {
      var space, sign, digits, tail := NumberFound(s);
      MagnitudeIs(s, space, sign, digits, tail);
    }
    forall space, sign, digits, tail | StartsWithNumber(s, space, sign, digits, tail)
      ensures AllDigits(digits) && Magnitude(s) == Some((sign == "-", DigitsValue(digits)))
    {
      MagnitudeIs(s, space, sign, digits, tail);
    }
  }

  /** `std::stoi` succeeds exactly on a text that starts with a number in the range of `int`. */
  lemma StoiExactly(s: string, i: int)
    ensures Stoi(s) == Some(i) <==>
      exists space, sign, digits, tail :: StartsWithNumber(s, space, sign, digits, tail)
        && i == (if sign == "-" then -(DigitsValue(digits) as int) else DigitsValue(digits))
        && -0x8000_0000 <= i < 0x8000_0000
  {
    hide StartsWithNumber, Magnitude, DigitsValue;
    if Magnitude(s).Some? {
      var space, sign, digits, tail := NumberFound(s);
      MagnitudeIs(s, space, sign, digits, tail);
    }
    forall space, sign, digits, tail | StartsWithNumber(s, space, sign, digits, tail)
      ensures AllDigits(digits) && Magnitude(s) == Some((sign == "-", DigitsValue(digits)))
    {
      MagnitudeIs(s, space, sign, digits, tail);
    }
  }

  // ----- Optional numbers -----

  function OptionalNat(o: Option<nat>): string { if o.Some? then NatText(o.value) else "" }

  function OptionalInt(o: Option<int>): string { if o.Some? then IntText(o.value) else "" }

  /** The outer None is the exception. */
  function ParseOptionalNat(s: string): Option<Option<nat>> {
    if s == "" then Some(None)
    else match Stoull(s) case Some(n) => Some(Some(n)) case None => None
  }

  function ParseOptionalInt(s: string): Option<Option<int>> {
    if s == "" then Some(None)
    else match Stoi(s) case Some(i) => Some(Some(i)) case None => None
  }

  lemma OptionalsRead(n: Option<nat>, i: Option<int>)
    ensures (n.Some? ==> n.value < U64) ==> ParseOptionalNat(OptionalNat(n)) == Some(n)
    ensures (i.Some? ==> INT_MIN <= i.value <= INT_MAX) ==> ParseOptionalInt(OptionalInt(i)) == Some(i)
  {
    if n.Some? && n.value < U64 {
      StoullReads(n.value);
    }
    if i.Some? && INT_MIN <= i.value <= INT_MAX {
      StoiReads(i.value);
    }
    hide Stoull, Stoi, NatText;
  }

  // ----- Fields -----

  function Fields(line: string): (r: seq<string>)
    ensures r != []
    decreases |line|
  {
    var f := Before({'\t'}, line);
    if |f| == |line| then [line] else [f] + Fields(line[|f| + 1..])
  }

  lemma FieldsStep(line: string, begin: nat, end: nat)
    requires begin <= end < |line| && end == begin + |Before({'\t'}, line[begin..])|
    ensures Fields(line[begin..]) == [line[begin..end]] + Fields(line[end + 1..])
  {
    var f := Before({'\t'}, line[begin..]);
    assert f == line[begin..][..|f|] == line[begin..end];
    assert line[begin..][end - begin + 1..] == line[end + 1..];
  }

  lemma Regroup(a: seq<string>, x: string, b: seq<string>)
    ensures a + ([x] + b) == (a + [x]) + b
  {
  }

  lemma LastField(line: string, begin: nat)
    requires begin <= |line| && begin + |Before({'\t'}, line[begin..])| == |line|
    ensures Fields(line[begin..]) == [line[begin..]]
  {
  }

  method SplitTsv(line: string) returns (fields: seq<string>)
    ensures fields == Fields(line)
  {
    hide Before, Fields;
    fields := [];
    var begin := 0;
    assert line[0..] == line;
    while begin <= |line|
      invariant 0 <= begin <= |line|
      invariant Fields(line) == fields + Fields(line[begin..])
      decreases |line| - begin
    {
      var end := begin + |Before({'\t'}, line[begin..])|;
      if end == |line| {
        LastField(line, begin);
        fields := fields + [line[begin..]];
        return;
      }
      FieldsStep(line, begin, end);
      Regroup(fields, line[begin..end], Fields(line[end + 1..]));
      fields := fields + [line[begin..end]];
      begin := end + 1;
    }
  }

  predicate Plain(s: string) { '\t' !in s && '\n' !in s }

  function Joined(fields: seq<string>): string
    requires fields != []
  {
    if |fields| == 1 then fields[0] else fields[0] + (['\t'] + Joined(fields[1..]))
  }

  /** Splitting undoes joining, and joining undoes splitting. */
  lemma {:induction false} FieldsOfJoined(fields: seq<string>)
    requires fields != [] && forall f :: f in fields ==> '\t' !in f
    ensures Fields(Joined(fields)) == fields
    decreases |fields|
  {
    if |fields| == 1 {
      OnlyField(fields[0]);
    } else {
      assert forall g :: g in fields[1..] ==> g in fields;
      FieldsOfJoined(fields[1..]);
      OneMoreField(fields[0], Joined(fields[1..]));
      hide Fields;
    }
  }

  lemma OnlyField(f: string)
    requires '\t' !in f
    ensures Fields(f) == [f]
  {
  }

  lemma OneMoreField(f: string, more: string)
    requires '\t' !in f
    ensures Fields(f + (['\t'] + more)) == [f] + Fields(more)
  {
    BeforeIs({'\t'}, f, ['\t'] + more);
    hide Before;
    assert (f + (['\t'] + more))[|f| + 1..] == more;
  }

  lemma {:induction false} JoinedOfFields(line: string)
    ensures Joined(Fields(line)) == line
    ensures forall f :: f in Fields(line) ==> '\t' !in f
    decreases |line|
  {
    hide Before;
    var f := Before({'\t'}, line);
    if |f| < |line| {
      var more := line[|f| + 1..];
      JoinedOfFields(more);
      assert Fields(line) == [f] + Fields(more);
      JoinMore(f, Fields(more));
      assert line == f + (['\t'] + more);
    } else {
      assert line == f;
    }
  }

  lemma JoinMore(f: string, more: seq<string>)
    requires more != []
    ensures Joined([f] + more) == f + (['\t'] + Joined(more))
  {
  }

  lemma {:induction false} JoinedPlain(fields: seq<string>)
    requires fields != [] && forall f :: f in fields ==> '\n' !in f
    ensures '\n' !in Joined(fields)
    decreases |fields|
  {
    if |fields| > 1 {
      assert forall g :: g in fields[1..] ==> g in fields;
      JoinedPlain(fields[1..]);
    }
  }

  // ----- Lines -----

  /** The lines that successive `std::getline` calls deliver. */
  function Lines(text: string): seq<string>
    decreases |text|
  {
    if text == "" then []
    else
      var line := Before({'\n'}, text);
      [line] + if |line| == |text| then [] else Lines(text[|line| + 1..])
  }

  function RowsText(rows: seq<string>): string {
    if rows == [] then "" else rows[0] + (['\n'] + RowsText(rows[1..]))
  }

  lemma {:induction false} LinesOfRows(rows: seq<string>)
    requires forall r :: r in rows ==> '\n' !in r
    ensures Lines(RowsText(rows)) == rows
    decreases |rows|
  {
    if rows != [] {
      var r, more := rows[0], RowsText(rows[1..]);
      OneMoreLine(r, more);
      assert forall q :: q in rows[1..] ==> q in rows;
      LinesOfRows(rows[1..]);
      hide Lines;
    }
  }

  lemma OneMoreLine(line: string, more: string)
    requires '\n' !in line
    ensures Lines(line + (['\n'] + more)) == [line] + Lines(more)
  {
    BeforeIs({'\n'}, line, ['\n'] + more);
    hide Before;
    assert (line + (['\n'] + more))[|line| + 1..] == more;
  }

  /** Appending a row and a line feed appends a row. */
  lemma {:induction false} RowsTextAppends(rows: seq<string>, row: string)
    ensures RowsText(rows + [row]) == RowsText(rows) + (row + ['\n'])
    decreases |rows|
  {
    if rows == [] {
      assert (rows + [row])[1..] == [];
      assert row + (['\n'] + "") == row + ['\n'];
    } else {
      assert (rows + [row])[1..] == rows[1..] + [row];
      RowsTextAppends(rows[1..], row);
    }
  }

  /** A text as its lines: each ended by a line feed, but for a last one that may lack it. */
  predicate AreLines(text: string, lines: seq<string>) {
    && (forall l :: l in lines ==> '\n' !in l)
    && (text == RowsText(lines) || (lines != [] && lines[|lines| - 1] != "" && text + ['\n'] == RowsText(lines)))
  }

  lemma LinesBefore(line: string, more: string, lines: seq<string>)
    requires '\n' !in line && AreLines(more, lines)
    ensures AreLines(line + (['\n'] + more), [line] + lines)
  {
    var all := [line] + lines;
    assert all[1..] == lines && all[0] == line;
    assert RowsText(all) == line + (['\n'] + RowsText(lines));
    hide RowsText;
    assert (line + (['\n'] + more)) + ['\n'] == line + (['\n'] + (more + ['\n']));
  }

  lemma OneLine(line: string)
    requires '\n' !in line && line != ""
    ensures AreLines(line, [line])
  {
    assert [line][1..] == [] && RowsText([]) == "";
    assert line + (['\n'] + "") == line + ['\n'];
  }

  lemma NextLine(text: string) returns (line: string, more: string)
    requires text != ""
    ensures '\n' !in line && |more| < |text|
    ensures (text == line && Lines(text) == [line]) || (text == line + (['\n'] + more) && Lines(text) == [line] + Lines(more))
  {
    line := Before({'\n'}, text);
    more := if |line| == |text| then "" else text[|line| + 1..];
    hide Before;
    if |line| < |text| {
      assert line == text[..|line|];
      assert text == text[..|line|] + ([text[|line|]] + text[|line| + 1..]);
    }
  }

  lemma {:induction false} LinesExactly(text: string)
    ensures AreLines(text, Lines(text))
    decreases |text|
  {
    if text != "" {
      var line, more := NextLine(text);
      hide Lines, AreLines;
      if Lines(text) == [line] && text == line {
        OneLine(line);
      } else {
        LinesExactly(more);
        LinesBefore(line, more, Lines(more));
      }
    }
  }

  // ----- Rows read with a parser that may throw -----

  /** Every non-empty line parsed, appended to `read`; None if any of them throws. */
  function ParseRows<T>(parse: string -> Option<T>, lines: seq<string>, read: seq<T>): Option<seq<T>> {
    if lines == [] then Some(read)
    else if lines[0] == "" then ParseRows(parse, lines[1..], read)
    else
      var row := parse(lines[0]);
      if row.None? then None else ParseRows(parse, lines[1..], read + [row.value])
  }

  lemma {:induction false} ParseRowsReads<T>(parse: string -> Option<T>, lines: seq<string>, read: seq<T>, rows: seq<T>)
    requires |lines| == |rows|
    requires forall k :: 0 <= k < |lines| ==> lines[k] != "" && parse(lines[k]) == Some(rows[k])
    ensures ParseRows(parse, lines, read) == Some(read + rows)
    decreases |lines|
  {
    if lines == [] {
      assert read + rows == read;
    } else {
      ParseRowsReads(parse, lines[1..], read + [rows[0]], rows[1..]);
      assert read + [rows[0]] + rows[1..] == read + rows;
    }
  }

  /** `header.find(pattern) != npos` */
  predicate Contains(s: string, pattern: string) {
    pattern <= s || (s != "" && Contains(s[1..], pattern))
  }

  predicate OccursAt(s: string, pattern: string, i: nat) { i <= |s| && pattern <= s[i..] }

  lemma {:induction false} ContainsExactly(s: string, pattern: string)
    ensures Contains(s, pattern) <==> exists i: nat :: OccursAt(s, pattern, i)
    decreases |s|
  {
    assert s[0..] == s;
    assert pattern <= s ==> OccursAt(s, pattern, 0);
    if s != "" {
      ContainsExactly(s[1..], pattern);
      forall i: nat | i < |s| ensures OccursAt(s[1..], pattern, i) <==> OccursAt(s, pattern, i + 1) {
        assert s[1..][i..] == s[i + 1..];
      }
      if i: nat :| OccursAt(s, pattern, i) {
        assert i > 0 ==> OccursAt(s[1..], pattern, i - 1);
      }
    }
  }

  lemma {:induction false} ContainsField(fields: seq<string>, k: nat)
    requires k < |fields|
    ensures Contains(Joined(fields), fields[k])
    decreases |fields|
  {
    if k == 0 {
      var rest := if |fields| == 1 then "" else ['\t'] + Joined(fields[1..]);
      assert Joined(fields) == fields[0] + rest;
    } else {
      ContainsField(fields[1..], k - 1);
      ContainsLater(fields[0] + ['\t'], Joined(fields[1..]), fields[k]);
      assert fields[0] + ['\t'] + Joined(fields[1..]) == Joined(fields);
    }
  }

  lemma {:induction false} ContainsLater(a: string, b: string, pattern: string)
    requires Contains(b, pattern)
    ensures Contains(a + b, pattern)
    decreases |a|
  {
    if a == "" {
      assert a + b == b;
    } else {
      assert (a + b)[1..] == a[1..] + b;
      ContainsLater(a[1..], b, pattern);
    }
  }
}
