/** Decimal text: what `std::to_string` and `operator<<` write for integers. */
module Text {

  const DIGITS := "0123456789"

  predicate IsDigit(c: char) { '0' <= c <= '9' }

  function Digit(c: char): nat
    requires IsDigit(c)
  {
    c as int - '0' as int
  }

  function DigitChar(n: nat): (c: char)
    requires n < 10
    ensures IsDigit(c) && Digit(c) == n
  {
    DIGITS[n]
  }

  function NatText(n: nat): (s: string)
    ensures s != [] && forall c :: c in s ==> IsDigit(c)
  {
    if n < 10 then [DigitChar(n)] else NatText(n / 10) + [DigitChar(n % 10)]
  }

  function IntText(n: int): string {
    if n < 0 then "-" + NatText(-n) else NatText(n)
  }

  predicate AllDigits(s: string) { forall c :: c in s ==> IsDigit(c) }

  /** The number that a string of digits denotes. */
  function DigitsValue(s: string): nat
    requires AllDigits(s)
  {
    if s == [] then 0 else 10 * DigitsValue(s[..|s| - 1]) + Digit(s[|s| - 1])
  }

  function TenTo(n: nat): nat { if n == 0 then 1 else 10 * TenTo(n - 1) }

  lemma OneMoreDigit(init: string, c: char)
    requires AllDigits(init) && IsDigit(c)
    ensures AllDigits(init + [c]) && DigitsValue(init + [c]) == 10 * DigitsValue(init) + Digit(c)
  {
    assert (init + [c])[..|init|] == init;
  }

  lemma Tenfold(d: nat, power: nat)
    ensures 10 * (d * power) == d * (10 * power)
  {
  }

  /** Read from the front: every digit counts by its place. */
  lemma {:induction false} DigitsByPlace(c: char, more: string)
    requires IsDigit(c) && AllDigits(more)
    ensures AllDigits([c] + more) && DigitsValue([c] + more) == Digit(c) * TenTo(|more|) + DigitsValue(more)
    decreases |more|
  {
    assert AllDigits([c] + more);
    if more == "" {
      OneMoreDigit("", c);
      assert [c] + more == "" + [c];
    } else {
      var init, last := more[..|more| - 1], more[|more| - 1];
      assert more == init + [last] && last in more && forall d :: d in init ==> d in more;
      assert [c] + more == ([c] + init) + [last];
      hide DigitsValue, Digit;
      DigitsByPlace(c, init);
      OneMoreDigit(init, last);
      OneMoreDigit([c] + init, last);
      Tenfold(Digit(c), TenTo(|init|));
    }
  }

  lemma {:induction false} NatTextValue(n: nat)
    ensures DigitsValue(NatText(n)) == n
  {
    if n >= 10 {
      NatTextValue(n / 10);
      assert NatText(n)[..|NatText(n)| - 1] == NatText(n / 10);
    } else {
      assert NatText(n)[..0] == [];
    }
  }

  /** Decimal digits without a leading zero. */
  predicate Canonical(s: string) { s != "" && AllDigits(s) && (s[0] == '0' ==> |s| == 1) }

  lemma {:induction false} NatTextCanonical(n: nat)
    ensures Canonical(NatText(n)) && (n > 0 ==> NatText(n)[0] != '0')
  {
    if n >= 10 {
      NatTextCanonical(n / 10);
      assert NatText(n)[0] == NatText(n / 10)[0];
    }
  }

  /** A number's text is the one canonical text that denotes it. */
  lemma {:induction false} NatTextExactly(n: nat, s: string)
    ensures s == NatText(n) <==> Canonical(s) && DigitsValue(s) == n
    decreases |s|
  {
    NatTextValue(n);
    NatTextCanonical(n);
    if Canonical(s) && DigitsValue(s) == n {
      var init, last := s[..|s| - 1], s[|s| - 1];
      assert last in s && s == init + [last];
      assert forall c :: c in init ==> c in s;
      if init == "" {
        assert DigitsValue(init) == 0;
        DigitOnce(last, DigitChar(n));
      } else {
        CanonicalPositive(s, init);
        NatTextExactly(n / 10, init);
        DigitOnce(last, DigitChar(n % 10));
      }
    }
  }

  lemma {:induction false} CanonicalPositive(s: string, init: string)
    requires Canonical(s) && init != "" && init < s
    ensures Canonical(init) && DigitsValue(init) > 0
    decreases |init|
  {
    assert forall c :: c in init ==> c in s;
    assert s[0] == init[0] && s[0] in s;
    if |init| == 1 {
      assert init[..0] == "";
    } else {
      CanonicalPositive(s, init[..|init| - 1]);
    }
  }

  lemma DigitOnce(a: char, b: char)
    requires IsDigit(a) && IsDigit(b) && Digit(a) == Digit(b)
    ensures a == b
  {
  }

  lemma IntTextExactly(i: int, s: string)
    ensures s == IntText(i) <==>
      if i >= 0 then Canonical(s) && DigitsValue(s) == i
      else |s| > 1 && s[0] == '-' && Canonical(s[1..]) && DigitsValue(s[1..]) == -i
  {
    hide NatText, DigitsValue;
    if i >= 0 {
      NatTextExactly(i, s);
    } else {
      if s != "" && s[0] == '-' {
        assert s == "-" + s[1..];
        NatTextExactly(-i, s[1..]);
      }
      NatTextExactly(-i, NatText(-i));
      assert ("-" + NatText(-i))[1..] == NatText(-i);
    }
  }

  /** The part of a text before the first of `stops`. */
  function Before(stops: set<char>, s: string): (r: string)
    ensures r <= s
    ensures forall c :: c in r ==> c !in stops
    ensures |r| < |s| ==> s[|r|] in stops
  {
    if s == "" || s[0] in stops then "" else [s[0]] + Before(stops, s[1..])
  }

  /** That part is unique. */
  lemma {:induction false} BeforeIs(stops: set<char>, part: string, rest: string)
    requires forall c :: c in part ==> c !in stops
    requires rest == "" || rest[0] in stops
    ensures Before(stops, part + rest) == part
    decreases |part|
  {
    if part == "" {
      assert part + rest == rest;
    } else {
      assert part[0] in part;
      assert (part + rest)[0] == part[0] && (part + rest)[1..] == part[1..] + rest;
      assert forall c :: c in part[1..] ==> c in part;
      BeforeIs(stops, part[1..], rest);
    }
  }
}
