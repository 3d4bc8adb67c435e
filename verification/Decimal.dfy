/** Decimal text of integers: Go's `%d` and JavaScript's `toString`. */
module Decimal {

  function Digits(n: nat): (r: seq<nat>)
    ensures r != [] && forall i :: 0 <= i < |r| ==> r[i] < 10
  {
    if n < 10 then [n] else Digits(n / 10) + [n % 10]
  }

  function Number(digits: seq<nat>): nat {
    if digits == [] then 0 else Number(digits[..|digits| - 1]) * 10 + digits[|digits| - 1]
  }

  lemma {:induction false} NumberOfDigits(n: nat)
    ensures Number(Digits(n)) == n
  {
    if 10 <= n {
      NumberOfDigits(n / 10);
      assert Digits(n)[..|Digits(n)| - 1] == Digits(n / 10);
    }
  }

  function DigitChar(d: nat): char
    requires d < 10
  {
    '0' + d as char
  }

  function Text(n: int): (r: string)
    ensures r != [] && forall i :: 0 <= i < |r| ==> r[i] == '-' || '0' <= r[i] <= '9'
  {
    var magnitude := Digits(if n < 0 then -n else n);
    var digits := seq(|magnitude|, i requires 0 <= i < |magnitude| => DigitChar(magnitude[i]));
    if n < 0 then ['-'] + digits else digits
  }

  /** The text is the sign of a negative number and the digits of its magnitude. */
  lemma TextParts(n: int) returns (digits: string)
    ensures Text(n) == (if n < 0 then "-" else "") + digits
    ensures var magnitude := Digits(if n < 0 then -n else n);
            && |digits| == |magnitude|
            && forall i :: 0 <= i < |digits| ==> '0' <= digits[i] <= '9' && digits[i] as int == '0' as int + magnitude[i]
  {
    hide Digits;
    var magnitude := Digits(if n < 0 then -n else n);
    digits := seq(|magnitude|, i requires 0 <= i < |magnitude| => DigitChar(magnitude[i]));
  }

  lemma TextSign(n: int)
    ensures Text(n)[0] == '-' <==> n < 0
  {
    if 0 <= n {
      assert Text(n)[0] == DigitChar(Digits(n)[0]);
    }
  }

  lemma TextIsInjective(m: int, n: int)
    requires Text(m) == Text(n)
    ensures m == n
  {
    TextSign(m);
    TextSign(n);
    var p, q := Digits(if m < 0 then -m else m), Digits(if n < 0 then -n else n);
    var skip := if m < 0 then 1 else 0;
    assert |p| == |q|;
    forall i | 0 <= i < |p| ensures p[i] == q[i] {
      assert Text(m)[i + skip] == DigitChar(p[i]) && Text(n)[i + skip] == DigitChar(q[i]);
    }
    assert p == q;
    NumberOfDigits(if m < 0 then -m else m);
    NumberOfDigits(if n < 0 then -n else n);
  }

  /** A position key `"%d:%d"` determines both numbers. */
  function PairText(m: int, n: int): string {
    Text(m) + ":" + Text(n)
  }

  lemma PairTextIsInjective(m: int, n: int, m': int, n': int)
    requires PairText(m, n) == PairText(m', n')
    ensures m == m' && n == n'
  {
    var s, t := PairText(m, n), PairText(m', n');
    assert s[|Text(m)|] == ':' && t[|Text(m')|] == ':';
    assert s[..|Text(m)|] == Text(m) && t[..|Text(m')|] == Text(m');
    assert s[|Text(m)| + 1..] == Text(n) && t[|Text(m')| + 1..] == Text(n');
    TextIsInjective(m, m');
    TextIsInjective(n, n');
  }
}
