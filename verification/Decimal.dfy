/**
  Decimal printing and parsing of Go's 64-bit `int`, as `strconv.Itoa`,
  `fmt.Sprintf("%d")` and `strconv.Atoi` do it, and the wrap-around of `+`.
 */
module Decimal {
  import opened Prelude

  const TWO_63: int := 0x8000_0000_0000_0000
  const TWO_64: int := 0x1_0000_0000_0000_0000

  predicate InInt64(n: int) {
    -TWO_63 <= n < TWO_63
  }

  /** Two's-complement wrap-around of an unbounded result into 64 bits. */
  function Wrap64(n: int): (r: int)
    ensures InInt64(r)
    ensures InInt64(n) ==> r == n
  {
    if InInt64(n) then n else (n + TWO_63) % TWO_64 - TWO_63
  }

  /** A non-negative operand plus any 64-bit operand either fits or wraps to a negative number. */
  lemma WrapIsExactOrNegative(x: int, y: int)
    requires 0 <= x < TWO_63 && InInt64(y)
    ensures Wrap64(x + y) == x + y || (x + y >= TWO_63 && Wrap64(x + y) < 0)
  {
  }

  predicate IsDigit(c: char) {
    '0' <= c <= '9'
  }

  predicate AllDigits(s: string) {
    forall i :: 0 <= i < |s| ==> IsDigit(s[i])
  }

  function DigitChar(d: nat): (c: char)
    requires d < 10
    ensures IsDigit(c) && DigitValue(c) == d
  {
    '0' + d as char
  }

  function DigitValue(c: char): (d: nat)
    requires IsDigit(c)
    ensures d < 10
  {
    c as int - '0' as int
  }

  /** Decimal digits, most significant first, no leading zero. */
  function Digits(n: nat): (s: string)
    ensures s != [] && AllDigits(s)
  {
    if n < 10 then [DigitChar(n)] else Digits(n / 10) + [DigitChar(n % 10)]
  }

  function DigitsValue(s: string): nat
    requires AllDigits(s)
  {
    if s == [] then 0
    else DigitsValue(s[..|s| - 1]) * 10 + DigitValue(s[|s| - 1])
  }

  /** `strconv.Itoa`. */
  function Itoa(n: int): string {
    if n < 0 then "-" + Digits(-n) else Digits(n)
  }

  /** `strconv.Atoi`: optional sign, at least one digit, leading zeros accepted, value in 64 bits. */
  function Atoi(s: string): (r: Option<int>)
    ensures r.Some? ==> InInt64(r.value)
  {
    if s == [] then None
    else
      var signed := s[0] == '-' || s[0] == '+';
      var body := if signed then s[1..] else s;
      if body == [] || !AllDigits(body) then None
      else
        var n := if s[0] == '-' then -(DigitsValue(body) as int) else DigitsValue(body);
        if InInt64(n) then Some(n) else None
  }

  lemma {:induction false} DigitsRoundTrip(n: nat)
    ensures DigitsValue(Digits(n)) == n
  {
    if n >= 10 {
      DigitsRoundTrip(n / 10);
      var s := Digits(n);
      assert s[..|s| - 1] == Digits(n / 10);
    } else {
      assert Digits(n)[..0] == [];
    }
  }

  /** Every 64-bit int survives printing and parsing. */
  lemma AtoiItoa(n: int)
    requires InInt64(n)
    ensures Atoi(Itoa(n)) == Some(n)
  {
    DigitsRoundTrip(if n < 0 then -n else n);
    if n < 0 {
      assert Itoa(n)[1..] == Digits(-n);
    } else {
      assert IsDigit(Itoa(n)[0]);
    }
  }

  function Pow10(k: nat): (p: nat)
    ensures p > 0
  {
    if k == 0 then 1 else 10 * Pow10(k - 1)
  }

  lemma {:induction false} DigitsLength(n: nat, k: nat)
    requires 0 < k && n < Pow10(k)
    ensures |Digits(n)| <= k
  {
    if n >= 10 {
      assert k > 1;
      DigitsLength(n / 10, k - 1);
    }
  }

  /** A non-negative 64-bit int prints in at most 19 characters. */
  lemma Int64Length(n: int)
    requires 0 <= n < TWO_63
    ensures |Itoa(n)| <= 19
  {
    assert Pow10(4) == 10000;
    assert Pow10(8) == 1_0000_0000;
    assert Pow10(12) == 1_0000_0000_0000;
    assert Pow10(16) == 1_0000_0000_0000_0000;
    assert Pow10(19) == 1000_0000_0000_0000_0000;
    DigitsLength(n, 19);
  }

  // ------------------------------------------------------- the texts themselves

  /** Only the characters 0 to 9. */
  predicate Numeral(s: string) {
    s != [] && forall i :: 0 <= i < |s| ==> '0' <= s[i] <= '9'
  }

  /** The positional value of a numeral: each character's distance from '0' times its power of ten. */
  function Positional(s: string): int {
    if s == [] then 0 else (s[0] as int - '0' as int) * Pow10(|s| - 1) + Positional(s[1..])
  }

  lemma {:induction false} PositionalSnoc(s: string, c: char)
    ensures Positional(s + [c]) == 10 * Positional(s) + (c as int - '0' as int)
  {
    if s == [] {
      assert s + [c] == [c] && [c][1..] == [];
    } else {
      assert (s + [c])[1..] == s[1..] + [c];
      PositionalSnoc(s[1..], c);
      var d, p := s[0] as int - '0' as int, Pow10(|s| - 1);
      assert Pow10(|s|) == 10 * p;
      assert d * (10 * p) == 10 * (d * p);
    }
  }

  lemma {:induction false} DigitsValueIsPositional(s: string)
    requires AllDigits(s)
    ensures DigitsValue(s) == Positional(s)
  {
    if s != [] {
      var n := |s| - 1;
      DigitsValueIsPositional(s[..n]);
      assert s == s[..n] + [s[n]];
      PositionalSnoc(s[..n], s[n]);
    }
  }

  lemma {:induction false} NoLeadingZero(n: nat)
    ensures Digits(n)[0] == '0' ==> n == 0 && |Digits(n)| == 1
  {
    if n >= 10 {
      NoLeadingZero(n / 10);
      assert Digits(n)[0] == Digits(n / 10)[0];
    }
  }

  /**
    What a number looks like in print: a minus sign exactly if negative, then its decimal numeral
    without leading zeros.
   */
  lemma PrintedForm(n: int)
    ensures var s := Itoa(n);
            var body := if n < 0 then s[1..] else s;
            && (n < 0 ==> s[0] == '-')
            && Numeral(body)
            && Positional(body) == (if n < 0 then -n else n)
            && (body[0] == '0' ==> body == "0")
  {
    var a := if n < 0 then -n else n;
    var s, body := Itoa(n), Digits(a);
    assert n < 0 ==> s[1..] == body;
    DigitsRoundTrip(a);
    DigitsValueIsPositional(body);
    NoLeadingZero(a);
    if body[0] == '0' {
      assert body == [body[0]];
    }
  }

  /**
    What is read as a number: an optional sign and a numeral, leading zeros allowed, whose value
    is in the 64-bit range.
   */
  lemma AcceptedForm(s: string, n: int)
    ensures Atoi(s) == Some(n) <==>
            && s != []
            && var body := if s[0] == '-' || s[0] == '+' then s[1..] else s;
               && Numeral(body)
               && n == (if s[0] == '-' then -Positional(body) else Positional(body))
               && -9223372036854775808 <= n <= 9223372036854775807
  {
    if s != [] {
      var body := if s[0] == '-' || s[0] == '+' then s[1..] else s;
      if Numeral(body) {
        assert AllDigits(body);
        DigitsValueIsPositional(body);
      }
    }
  }

  /** Wrapping keeps a number in the 64-bit range and changes it by a multiple of 2^64. */
  lemma WrapIsModular(n: int)
    ensures -9223372036854775808 <= Wrap64(n) <= 9223372036854775807
    ensures (Wrap64(n) - n) % 18446744073709551616 == 0
  {
  }
}
