/** How many units of a delivery action one order needs. */
module OrderQuantity {
  import opened Options
  import opened GoStrings
  import Decimal

  const MAX_INT: int := 0x7FFF_FFFF_FFFF_FFFF
  const MIN_INT: int := -0x8000_0000_0000_0000

  /** Go's 64-bit wrap-around. */
  function Wrap(n: int): (r: int)
    ensures MIN_INT <= r <= MAX_INT
    ensures r == n <==> MIN_INT <= n <= MAX_INT
    ensures (n - r) % 0x1_0000_0000_0000_0000 == 0
  {
    (n - MIN_INT) % 0x1_0000_0000_0000_0000 + MIN_INT
  }

  predicate IsDigit(c: char) {
    '0' <= c <= '9'
  }

  predicate AllDigits(s: string) {
    s != [] && forall i :: 0 <= i < |s| ==> IsDigit(s[i])
  }

  function DigitOf(c: char): nat
    requires IsDigit(c)
  {
    c as int - '0' as int
  }

  function DigitValues(s: string): (r: seq<nat>)
    requires forall i :: 0 <= i < |s| ==> IsDigit(s[i])
  {
    seq(|s|, i requires 0 <= i < |s| => DigitOf(s[i]))
  }

  /** `strconv.Atoi`. */
  function Atoi(s: string): (r: Option<int>)
    ensures r.Some? ==> MIN_INT <= r.value <= MAX_INT
  {
    var signed := s != [] && (s[0] == '+' || s[0] == '-');
    var digits := if signed then s[1..] else s;
    if !AllDigits(digits) then None
    else
      var n: int := Decimal.Number(DigitValues(digits));
      var v := if signed && s[0] == '-' then -n else n;
      if MIN_INT <= v <= MAX_INT then Some(v) else None
  }

  /** `parsePositiveInt`: anything that is not a number from zero up counts as zero. */
  function ParsePositiveInt(raw: string): (r: int)
    ensures 0 <= r <= MAX_INT
  {
    match Atoi(Trim(raw))
    case None => 0
    case Some(n) => if n < 0 then 0 else n
  }

  /** `deliverySendCount`: the product in 64-bit arithmetic. */
  function SendCount(deliveryCount: int, quantity: string): (r: int)
    ensures MIN_INT <= r <= MAX_INT
  {
    Wrap(PerUnit(deliveryCount) * Quantity(quantity))
  }

  function PerUnit(deliveryCount: int): (r: int)
    ensures 1 <= r
  {
    if deliveryCount <= 0 then 1 else deliveryCount
  }

  function Quantity(quantity: string): (r: int)
    ensures 1 <= r <= MAX_INT
  {
    var n := ParsePositiveInt(quantity);
    if n <= 0 then 1 else n
  }

  /** The decimal text of a quantity, with any white space around it, is read back as that quantity. */
  lemma QuantityRoundTrip(n: int, before: string, after: string)
    requires 0 <= n <= MAX_INT
    requires forall i :: 0 <= i < |before| ==> IsSpace(before[i])
    requires forall i :: 0 <= i < |after| ==> IsSpace(after[i])
    ensures ParsePositiveInt(before + Decimal.Text(n) + after) == n
  {
    hide Decimal.Text, IsSpace, TrimLeft, TrimRight, Atoi;
    var text := Decimal.Text(n);
    TextOfInteger(n);
    TrimStripsLeft(before, text + after);
    TrimStripsRight(text, after);
    assert before + text + after == before + (text + after);
  }

  /** The count is the intended product exactly when the product fits in 64 bits. */
  lemma SendCountIsProduct(deliveryCount: int, quantity: string)
    ensures SendCount(deliveryCount, quantity) == PerUnit(deliveryCount) * Quantity(quantity)
       <==> PerUnit(deliveryCount) * Quantity(quantity) <= MAX_INT
  {
    hide PerUnit, Quantity, Wrap;
  }

  lemma SendCountOfText(deliveryCount: int, n: int)
    requires 1 <= n <= MAX_INT
    ensures SendCount(deliveryCount, Decimal.Text(n)) == Wrap(PerUnit(deliveryCount) * n)
  {
    hide Wrap, Decimal.Text, ParsePositiveInt;
    QuantityRoundTrip(n, "", "");
    assert "" + Decimal.Text(n) + "" == Decimal.Text(n);
  }

  /** What is sent for an order whose quantity is a number, with any white space around it: the quantity times
    * the action's count, where a count or a quantity that is not positive counts as one, and so does a
    * quantity beyond 64 bits.
    */
  lemma SendCountOfNumber(deliveryCount: int, n: int, before: string, after: string)
    requires forall i :: 0 <= i < |before| ==> IsSpace(before[i])
    requires forall i :: 0 <= i < |after| ==> IsSpace(after[i])
    ensures var each, quantity := if 1 <= deliveryCount then deliveryCount else 1, if 1 <= n <= MAX_INT then n else 1;
            SendCount(deliveryCount, before + Decimal.Text(n) + after) == Wrap(each * quantity)
  {
    hide Decimal.Text, IsSpace, TrimLeft, TrimRight, Atoi, Wrap;
    var text := Decimal.Text(n);
    TextOfInteger(n);
    TrimStripsLeft(before, text + after);
    TrimStripsRight(text, after);
    assert before + text + after == before + (text + after);
  }

  lemma TextOfInteger(n: int)
    ensures Decimal.Text(n) != [] && Trimmed(Decimal.Text(n))
    ensures Atoi(Decimal.Text(n)) == if MIN_INT <= n <= MAX_INT then Some(n) else None
  {
    hide Decimal.Text, Decimal.Digits, Decimal.Number, AllDigits, DigitValues;
    var magnitude := if n < 0 then -n else n;
    var text := Decimal.Text(n);
    var digits := DigitsOfText(n);
    Decimal.NumberOfDigits(magnitude);
    if n < 0 {
      assert text[0] == '-' && text[1..] == digits;
    } else {
      assert text == digits && IsDigit(text[0]);
      assert Decimal.Number(DigitValues(text)) == n;
      assert text[0] != '-' && text[0] != '+';
    }
  }

  /** The digits in the text of a number. */
  lemma DigitsOfText(n: int) returns (digits: string)
    ensures Decimal.Text(n) == (if n < 0 then "-" else "") + digits && AllDigits(digits)
    ensures forall i :: 0 <= i < |digits| ==> IsDigit(digits[i])
    ensures DigitValues(digits) == Decimal.Digits(if n < 0 then -n else n)
  {
    digits := Decimal.TextParts(n);
    assert forall i :: 0 <= i < |digits| ==> DigitOf(digits[i]) == Decimal.Digits(if n < 0 then -n else n)[i];
  }

  /** A plus sign before the digits does not matter. */
  lemma SendCountOfSignedNumber(deliveryCount: int, n: nat)
    ensures SendCount(deliveryCount, "+" + Decimal.Text(n)) == SendCount(deliveryCount, Decimal.Text(n))
  {
    hide Decimal.Text, Decimal.Digits, Decimal.Number, AllDigits, DigitValues, Wrap, TrimLeft, TrimRight;
    var digits := DigitsOfText(n);
    var text := "+" + digits;
    assert Decimal.Text(n) == digits && text[1..] == digits && text[0] == '+';
    TrimOfTrimmed(digits);
    TrimOfTrimmed(text);
    Decimal.NumberOfDigits(n);
    assert digits[0] != '+' && digits[0] != '-';
  }

  /** A quantity that is empty, or contains anything but digits after an optional sign, counts as one. */
  lemma SendCountOfOtherText(deliveryCount: int, quantity: string)
    requires var text := Trim(quantity);
             text == "" || exists i :: 0 <= i < |text| && !('0' <= text[i] <= '9') && !(i == 0 && (text[0] == '+' || text[0] == '-'))
    ensures SendCount(deliveryCount, quantity) == Wrap(if 1 <= deliveryCount then deliveryCount else 1)
  {
    hide Trim, Wrap;
    var text := Trim(quantity);
    var signed := text != [] && (text[0] == '+' || text[0] == '-');
    var digits := if signed then text[1..] else text;
    if text != "" {
      var i :| 0 <= i < |text| && !('0' <= text[i] <= '9') && !(i == 0 && (text[0] == '+' || text[0] == '-'));
      assert digits[if signed then i - 1 else i] == text[i];
    }
    assert !AllDigits(digits);
  }

  /** An order of 2 to the 62nd units with two cards each counts as negative: nothing would be sent. */
  lemma SendCountCanBeNegative()
    ensures exists n :: 1 <= n <= MAX_INT && SendCount(2, Decimal.Text(n)) == MIN_INT
  {
    hide Decimal.Text, SendCount;
    var n := 0x4000_0000_0000_0000;
    SendCountOfText(2, n);
  }
}
