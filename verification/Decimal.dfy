/** Canonical decimal numerals and the orders that scripts put on them. */
module Decimal {
  import opened Wrappers

  predicate IsDigit(c: char) {
    '0' <= c <= '9'
  }

  function DigitChar(d: nat): (c: char)
    requires d < 10
    ensures IsDigit(c) && DigitValue(c) == d
  {
    '0' + d as char
  }

  function DigitValue(c: char): nat
    requires IsDigit(c)
  {
    (c - '0') as nat
  }

  /** A non-empty string of digits: the pattern ^%d+$. */
  predicate IsNumeral(s: string) {
    s != [] && forall i | 0 <= i < |s| :: IsDigit(s[i])
  }

  /** The numeral without leading zeros. */
  function Numeral(n: nat): (s: string)
    ensures IsNumeral(s) && Value(s) == n
    ensures n > 0 ==> s[0] != '0'
    decreases n
  {
    if n < 10 then [DigitChar(n)]
    else
      var s := Numeral(n / 10) + [DigitChar(n % 10)];
      assert s[..|s| - 1] == Numeral(n / 10);
      s
  }

  function Value(s: string): nat
    requires forall i | 0 <= i < |s| :: IsDigit(s[i])
    decreases |s|
  {
    if s == [] then 0 else Value(s[..|s| - 1]) * 10 + DigitValue(s[|s| - 1])
  }

  predicate IsCanonical(s: string) {
    IsNumeral(s) && s == Numeral(Value(s))
  }

  /** strconv.FormatInt in base 10. */
  function Format(n: int): string {
    if n < 0 then "-" + Numeral(-n) else Numeral(n)
  }

  /** Byte order on strings, as Lua's `a >= b`. */
  predicate TextAtLeast(a: string, b: string)
    decreases |a|
  {
    if b == [] then true
    else if a == [] then false
    else if a[0] != b[0] then a[0] > b[0]
    else TextAtLeast(a[1..], b[1..])
  }

  /** The longer string is greater; equal lengths compare as text. */
  predicate LengthThenText(a: string, b: string) {
    |a| > |b| || (|a| == |b| && TextAtLeast(a, b))
  }

  lemma {:induction false} TextSnoc(a: string, b: string, c: char, d: char)
    requires |a| == |b|
    ensures TextAtLeast(a + [c], b + [d]) <==> (if a == b then c >= d else TextAtLeast(a, b))
    decreases |a|
  {
    if a == [] {
    } else {
      assert (a + [c])[1..] == a[1..] + [c] && (b + [d])[1..] == b[1..] + [d];
      TextSnoc(a[1..], b[1..], c, d);
      assert a == b <==> a[0] == b[0] && a[1..] == b[1..] by {
        assert a == [a[0]] + a[1..] && b == [b[0]] + b[1..];
      }
    }
  }

  lemma {:induction false} LengthOrder(a: nat, b: nat)
    requires a <= b
    ensures |Numeral(a)| <= |Numeral(b)|
    decreases b
  {
    if b >= 10 && a >= 10 {
      LengthOrder(a / 10, b / 10);
    }
  }

  lemma {:induction false} TextOrder(a: nat, b: nat)
    requires |Numeral(a)| == |Numeral(b)|
    ensures TextAtLeast(Numeral(a), Numeral(b)) <==> a >= b
    decreases a
  {
    if a >= 10 {
      TextOrder(a / 10, b / 10);
      TextSnoc(Numeral(a / 10), Numeral(b / 10), DigitChar(a % 10), DigitChar(b % 10));
      assert a / 10 == b / 10 <==> Numeral(a / 10) == Numeral(b / 10);
    } else {
      assert b < 10;
    }
  }

  /** Comparing canonical numerals by length and then by text is comparing the numbers. */
  lemma LengthThenTextIsOrder(a: nat, b: nat)
    ensures LengthThenText(Numeral(a), Numeral(b)) <==> a >= b
  {
    if |Numeral(a)| == |Numeral(b)| {
      TextOrder(a, b);
    } else if a <= b {
      LengthOrder(a, b);
    } else {
      LengthOrder(b, a);
    }
  }
}
