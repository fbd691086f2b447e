/**
 * Character and number rendering shared by the pipeline: the ASCII part of
 * `toLowerCase`/`toUpperCase`, and `Number#toString` for the integer and
 * one-decimal values the reply shows. The number renderings are paired with
 * parsers, and the round trips are proved.
 */
module Text {

  /** `toLowerCase` on one character, restricted to ASCII letters. */
  function LowerChar(c: char): char {
    if 'A' <= c <= 'Z' then (c as int + 32) as char else c
  }

  /** `toUpperCase` on one character, restricted to ASCII letters. */
  function UpperChar(c: char): char {
    if 'a' <= c <= 'z' then (c as int - 32) as char else c
  }

  /** `String#toLowerCase`, character by character. */
  function ToLower(s: string): (r: string)
    ensures |r| == |s|
    ensures forall i :: 0 <= i < |s| ==> r[i] == LowerChar(s[i])
  {
    if s == [] then [] else [LowerChar(s[0])] + ToLower(s[1..])
  }

  /** The decimal digit character for `d`. */
  function Digit(d: nat): char
    requires d < 10
  {
    ('0' as int + d) as char
  }

  /** The value of a decimal digit character. */
  function DigitValue(c: char): int {
    c as int - '0' as int
  }

  predicate IsDigits(s: string) {
    forall i :: 0 <= i < |s| ==> '0' <= s[i] <= '9'
  }

  /** Decimal rendering of a natural number, without leading zeros. */
  function ShowNat(n: nat): string {
    if n < 10 then [Digit(n)] else ShowNat(n / 10) + [Digit(n % 10)]
  }

  /** `String(n)` for an integer-valued number. */
  function ShowInt(n: int): string {
    if n < 0 then "-" + ShowNat(-n) else ShowNat(n)
  }

  /** The magnitude part of `ShowTenths`: the ".0" of a whole number is not printed. */
  function ShowUnsignedTenths(m: nat): string {
    ShowNat(m / 10) + (if m % 10 == 0 then "" else "." + [Digit(m % 10)])
  }

  /** `String(x)` for a number x with at most one decimal, given as `t` tenths. */
  function ShowTenths(t: int): string {
    if t < 0 then "-" + ShowUnsignedTenths(-t) else ShowUnsignedTenths(t)
  }

  /** The value of a string of decimal digits, read left to right. */
  function ParseNat(s: string): int {
    if s == [] then 0 else 10 * ParseNat(s[..|s| - 1]) + DigitValue(s[|s| - 1])
  }

  /** An optionally signed integer. */
  function ParseInt(s: string): int {
    if s != [] && s[0] == '-' then -ParseNat(s[1..]) else ParseNat(s)
  }

  /** Digits with an optional one-digit decimal part, in tenths. */
  function ParseUnsignedTenths(s: string): int {
    if |s| >= 2 && s[|s| - 2] == '.' then 10 * ParseNat(s[..|s| - 2]) + DigitValue(s[|s| - 1])
    else 10 * ParseNat(s)
  }

  /** An optionally signed number with at most one decimal, in tenths. */
  function ParseTenths(s: string): int {
    if s != [] && s[0] == '-' then -ParseUnsignedTenths(s[1..]) else ParseUnsignedTenths(s)
  }

  /**
   * `ShowNat` writes only digits, at least one, with no leading zero, and
   * reading them back gives the number.
   */
  lemma {:induction false} ShowNatRoundTrip(n: nat)
    ensures |ShowNat(n)| >= 1 && IsDigits(ShowNat(n))
    ensures ShowNat(n)[0] == '0' ==> n == 0
    ensures ParseNat(ShowNat(n)) == n
  {
    if n >= 10 {
      ShowNatRoundTrip(n / 10);
      var s := ShowNat(n / 10) + [Digit(n % 10)];
      assert s[..|s| - 1] == ShowNat(n / 10);
    }
  }

  /** Reading back a rendered integer gives the integer. */
  lemma ShowIntRoundTrip(n: int)
    ensures ParseInt(ShowInt(n)) == n
  {
    if n < 0 {
      ShowNatRoundTrip(-n);
      assert ShowInt(n)[1..] == ShowNat(-n);
    } else {
      ShowNatRoundTrip(n);
    }
  }

  lemma UnsignedTenthsRoundTrip(m: nat)
    ensures |ShowUnsignedTenths(m)| >= 1 && '0' <= ShowUnsignedTenths(m)[0] <= '9'
    ensures '.' in ShowUnsignedTenths(m) <==> m % 10 != 0
    ensures ParseUnsignedTenths(ShowUnsignedTenths(m)) == m
  {
    var w := ShowNat(m / 10);
    ShowNatRoundTrip(m / 10);
    assert '.' !in w;
    var s := ShowUnsignedTenths(m);
    if m % 10 != 0 {
      assert s == w + ['.', Digit(m % 10)];
      assert s[..|s| - 2] == w;
      assert s[|s| - 2] == '.';
    } else {
      assert s == w;
      assert |s| >= 2 ==> s[|s| - 2] != '.';
    }
  }

  /** A number and its negation are whole together. */
  lemma WholeUnderNegation(t: int)
    ensures (-t) % 10 == 0 <==> t % 10 == 0
  {
    var q := t / 10;
    assert t == 10 * q + t % 10;
    if t % 10 != 0 {
      assert -t == 10 * (-q - 1) + (10 - t % 10);
    }
  }

  /** A leading minus sign negates what follows and adds no decimal point. */
  lemma SignedTenths(u: string)
    requires |u| >= 1 && '0' <= u[0] <= '9'
    ensures ParseTenths("-" + u) == -ParseUnsignedTenths(u)
    ensures ParseTenths(u) == ParseUnsignedTenths(u)
    ensures '.' in "-" + u <==> '.' in u
  {
    assert ("-" + u)[1..] == u;
  }

  /**
   * Reading back a rendered one-decimal number gives its tenths, and the
   * decimal point is printed exactly when the number is not whole.
   */
  lemma ShowTenthsRoundTrip(t: int)
    ensures ParseTenths(ShowTenths(t)) == t
    ensures '.' in ShowTenths(t) <==> t % 10 != 0
  {
    if t < 0 {
      UnsignedTenthsRoundTrip(-t);
      SignedTenths(ShowUnsignedTenths(-t));
      WholeUnderNegation(t);
    } else {
      UnsignedTenthsRoundTrip(t);
      SignedTenths(ShowUnsignedTenths(t));
    }
  }
}
