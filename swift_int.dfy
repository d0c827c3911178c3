/**
 * The pieces of Swift's `Int` the core relies on: division and remainder,
 * which truncate toward zero (Dafny's `/` and `%` are Euclidean), and the
 * decimal text that string interpolation `"\(n)"` and `String(format:)`
 * with `%d` and `%02d` produce.  A reader for decimal numerals is the
 * partner of the printer: it is what lets the formatting lemmas say that
 * the text shows exactly the intended numbers.
 */
module SwiftInt {
  import opened Wrappers

  /** Swift's `a / b` for a positive divisor: rounds toward zero. */
  function Quot(a: int, b: int): (q: int)
    requires b > 0
    ensures a >= 0 ==> 0 <= a - b * q < b
    ensures a < 0 ==> -b < a - b * q <= 0
  {
    if a >= 0 then a / b else -((-a) / b)
  }

  /** Swift's `a % b` for a positive divisor: takes the sign of `a`. */
  function Rem(a: int, b: int): (r: int)
    requires b > 0
    ensures a == b * Quot(a, b) + r
    ensures a >= 0 ==> r == a % b
    ensures a < 0 ==> r <= 0
    ensures -b < r < b
  {
    a - b * Quot(a, b)
  }

  predicate IsDigit(c: char) {
    '0' <= c <= '9'
  }

  predicate AllDigits(s: string) {
    forall i :: 0 <= i < |s| ==> IsDigit(s[i])
  }

  function DigitChar(d: nat): (c: char)
    requires d < 10
    ensures IsDigit(c)
  {
    ('0' as int + d) as char
  }

  function DigitValue(c: char): (d: nat)
    requires IsDigit(c)
    ensures d < 10
  {
    c as int - '0' as int
  }

  /** A numeral as `"\(n)"` writes it: "0" alone, or digits that do not start with '0'. */
  predicate NoLeadingZero(s: string) {
    |s| == 1 || (s != [] && s[0] != '0')
  }

  /** `"\(n)"` for a non-negative `Int`: its decimal digits, no leading zero. */
  function NatToString(n: nat): (s: string)
    ensures 1 <= |s| && AllDigits(s) && NoLeadingZero(s)
    ensures (n < 10) == (|s| == 1)
    decreases n
  {
    if n < 10 then [DigitChar(n)] else NatToString(n / 10) + [DigitChar(n % 10)]
  }

  /** `"\(i)"` for any `Int`: a minus sign before the digits of a negative value. */
  function IntToString(i: int): (s: string)
    ensures i >= 0 ==> AllDigits(s) && NoLeadingZero(s) && DigitsValue(s) == i
    ensures i < 0 ==> |s| >= 2 && s[0] == '-' && AllDigits(s[1..]) && NoLeadingZero(s[1..]) && DigitsValue(s[1..]) == -i
  {
    if i < 0 then
      NatToStringValue(-i);
      assert ("-" + NatToString(-i))[1..] == NatToString(-i);
      "-" + NatToString(-i)
    else
      NatToStringValue(i);
      NatToString(i)
  }

  /** `String(format: "%02d", n)` for `n >= 0`: zero-padded to at least two digits. */
  function Pad2(n: nat): (s: string)
    ensures 2 <= |s| && AllDigits(s)
    ensures n < 100 ==> |s| == 2
  {
    if n < 10 then ['0'] + NatToString(n) else NatToString(n)
  }

  /** The number a string of decimal digits denotes (leading zeros allowed). */
  function DigitsValue(s: string): nat
    requires AllDigits(s)
    decreases |s|
  {
    if s == [] then 0 else 10 * DigitsValue(s[..|s| - 1]) + DigitValue(s[|s| - 1])
  }

  /** The decimal text of `n` denotes `n`. */
  lemma {:induction false} NatToStringValue(n: nat)
    ensures DigitsValue(NatToString(n)) == n
  {
    if n >= 10 {
      var s := NatToString(n);
      assert s[..|s| - 1] == NatToString(n / 10);
      NatToStringValue(n / 10);
    }
  }

  /** The zero-padded text of `n` denotes `n`. */
  lemma Pad2Value(n: nat)
    ensures DigitsValue(Pad2(n)) == n
  {
    NatToStringValue(n);
    if n < 10 {
      var s := Pad2(n);
      assert s[..|s| - 1] == ['0'];
    }
  }

  /** How many decimal digits stand at the front of `s`. */
  function LeadingDigits(s: string): (k: nat)
    ensures k <= |s|
    ensures AllDigits(s[..k])
    ensures k < |s| ==> !IsDigit(s[k])
    decreases |s|
  {
    if s == [] || !IsDigit(s[0]) then 0 else 1 + LeadingDigits(s[1..])
  }

  lemma {:induction false} LeadingDigitsOfNumeral(ds: string, rest: string)
    requires AllDigits(ds)
    requires rest == [] || !IsDigit(rest[0])
    ensures LeadingDigits(ds + rest) == |ds|
  {
    if ds != [] {
      assert (ds + rest)[1..] == ds[1..] + rest;
      LeadingDigitsOfNumeral(ds[1..], rest);
    }
  }

  /** A decimal numeral read off the front of a string: its value, how many digits it had, and the text after it. */
  datatype Numeral = Numeral(value: nat, width: nat, rest: string)

  /** Reads the numeral at the front of `s`; None when `s` does not start with a digit. */
  function ReadNumeral(s: string): (r: Option<Numeral>)
    ensures r.Some? ==> 1 <= r.value.width <= |s| && s == s[..r.value.width] + r.value.rest
    ensures r.Some? ==> AllDigits(s[..r.value.width]) && DigitsValue(s[..r.value.width]) == r.value.value
    ensures r.Some? ==> r.value.rest == [] || !IsDigit(r.value.rest[0])
    ensures r.Some? <==> s != [] && IsDigit(s[0])
  {
    var k := LeadingDigits(s);
    if k == 0 then None else Some(Numeral(DigitsValue(s[..k]), k, s[k..]))
  }

  /** Reading digits followed by a non-digit gives back their value, their count and what follows. */
  lemma ReadNumeralOf(ds: string, rest: string)
    requires 1 <= |ds| && AllDigits(ds)
    requires rest == [] || !IsDigit(rest[0])
    ensures ReadNumeral(ds + rest) == Some(Numeral(DigitsValue(ds), |ds|, rest))
    ensures (ds + rest)[..|ds|] == ds
  {
    LeadingDigitsOfNumeral(ds, rest);
    assert (ds + rest)[..|ds|] == ds;
    assert (ds + rest)[|ds|..] == rest;
  }

  lemma {:induction false} LeadingDigitNonzero(ds: string)
    requires 1 <= |ds| && AllDigits(ds) && ds[0] != '0'
    ensures DigitsValue(ds) >= 1
  {
    if |ds| > 1 {
      LeadingDigitNonzero(ds[..|ds| - 1]);
    }
  }

  /** Digits without a leading zero are exactly the decimal text of the number they denote. */
  lemma {:induction false} CanonicalDigits(ds: string)
    requires 1 <= |ds| && AllDigits(ds) && NoLeadingZero(ds)
    ensures NatToString(DigitsValue(ds)) == ds
  {
    var last := ds[|ds| - 1];
    var d := DigitValue(last);
    assert DigitChar(d) == last;
    if |ds| > 1 {
      var front := ds[..|ds| - 1];
      assert front[0] == ds[0];
      CanonicalDigits(front);
      LeadingDigitNonzero(front);
      var n := DigitsValue(ds);
      assert n == 10 * DigitsValue(front) + d;
      assert n / 10 == DigitsValue(front) && n % 10 == d;
      assert ds == front + [last];
    }
  }

  /** Any two digits are the `%02d` text of the number they denote. */
  lemma TwoDigits(ds: string)
    requires |ds| == 2 && AllDigits(ds)
    ensures DigitsValue(ds) < 100 && Pad2(DigitsValue(ds)) == ds
  {
    var d0, d1 := DigitValue(ds[0]), DigitValue(ds[1]);
    assert ds[..1] == [ds[0]];
    assert ds[..1][..0] == [];
    assert DigitsValue(ds[..1]) == d0;
    assert ds[|ds| - 1] == ds[1];
    assert DigitsValue(ds) == 10 * d0 + d1;
    if ds[0] == '0' {
      assert DigitChar(d1) == ds[1];
      assert ds == ['0'] + [DigitChar(d1)];
    } else {
      CanonicalDigits(ds);
    }
  }
}
