/** Numbers in decimal notation. */
module Decimals {
  import opened Options
  import opened Texts

  predicate IsDigit(c: char) {
    '0' <= c <= '9'
  }

  function Digit(d: nat): char
    requires d < 10
  {
    (d + '0' as int) as char
  }

  function Single(d: nat): Text
    requires d < 10
  {
    Char(Digit(d), End)
  }

  /** Without leading zeros. */
  function Digits(n: nat): Text {
    if n < 10 then Single(n) else Append(Digits(n / 10), Single(n % 10))
  }

  /** With leading zeros, as many digits as asked for. */
  function Padded(n: nat, width: nat): Text {
    if width == 0 then End else Append(Padded(n / 10, width - 1), Single(n % 10))
  }

  function ShowInt(n: int): Text {
    if n < 0 then Char('-', Digits(-n)) else Digits(n)
  }

  const UNITS: nat := 1_000_000_000_000

  /** A number of 10^-12 units with its twelve decimals. */
  function ShowUnits(n: int): Text {
    var size: nat := if n < 0 then -n else n;
    var shown := Append(Digits(size / UNITS), Char('.', Padded(size % UNITS, 12)));
    if n < 0 then Char('-', shown) else shown
  }

  // -------------------------------------------------------------- what numerals mean

  /** The value of a row of digits behind digits worth `acc`. */
  function Value(t: Text, acc: nat): Option<nat> {
    if t.End? then Some(acc)
    else if IsDigit(t.c) then Value(t.rest, 10 * acc + (t.c as int - '0' as int))
    else None
  }

  /** The integer a numeral without a point means. */
  function IntValue(t: Text): Option<int> {
    if t.End? then None
    else if t.c == '-' then
      if t.rest.End? || Value(t.rest, 0).None? then None else Some(0 - Value(t.rest, 0).value as int)
    else if Value(t, 0).None? then None
    else Some(Value(t, 0).value)
  }

  function Size(t: Text): nat {
    if t.End? then 0 else 1 + Size(t.rest)
  }

  /** A numeral with exactly twelve decimals means its digits, read without the point, in units of 10^-12. */
  function UnitsValue(t: Text, acc: nat): Option<nat> {
    if t.End? then None
    else if t.c == '.' then if Size(t.rest) == 12 then Value(t.rest, acc) else None
    else if IsDigit(t.c) then UnitsValue(t.rest, 10 * acc + (t.c as int - '0' as int))
    else None
  }

  // --------------------------------------------------------- printed numbers read back

  lemma {:induction false} ValueOfAppend(a: Text, b: Text, acc: nat)
    ensures Value(Append(a, b), acc) == if Value(a, acc).None? then None else Value(b, Value(a, acc).value)
  {
    if a.Char? && IsDigit(a.c) { ValueOfAppend(a.rest, b, 10 * acc + (a.c as int - '0' as int)); }
  }

  lemma {:induction false} DigitsReadBack(n: nat)
    ensures Value(Digits(n), 0) == Some(n) && Digits(n).Char? && IsDigit(Digits(n).c)
  {
    if n >= 10 {
      DigitsReadBack(n / 10);
      ValueOfAppend(Digits(n / 10), Single(n % 10), 0);
    }
  }

  function Power(width: nat): nat {
    if width == 0 then 1 else 10 * Power(width - 1)
  }

  /** `n` written behind `acc`, in as many digits as `power` has zeros. */
  function Behind(acc: nat, power: nat, n: nat): nat {
    acc * power + n
  }

  lemma OneDigitMore(acc: nat, power: nat, n: nat)
    ensures 10 * Behind(acc, power, n / 10) + n % 10 == Behind(acc, 10 * power, n)
  {
  }

  lemma {:induction false} PaddedReadBack(n: nat, width: nat, acc: nat)
    requires n < Power(width)
    ensures Value(Padded(n, width), acc) == Some(Behind(acc, Power(width), n))
  {
    if width > 0 {
      PaddedReadBack(n / 10, width - 1, acc);
      ValueOfAppend(Padded(n / 10, width - 1), Single(n % 10), acc);
      OneDigitMore(acc, Power(width - 1), n);
    }
  }

  lemma {:induction false} SizeOfAppend(a: Text, b: Text)
    ensures Size(Append(a, b)) == Size(a) + Size(b)
  {
    if a.Char? { SizeOfAppend(a.rest, b); }
  }

  lemma {:induction false} PaddedSize(n: nat, width: nat)
    ensures Size(Padded(n, width)) == width
  {
    if width > 0 {
      PaddedSize(n / 10, width - 1);
      SizeOfAppend(Padded(n / 10, width - 1), Single(n % 10));
    }
  }

  lemma {:induction false} UnitsOfAppend(a: Text, b: Text, acc: nat)
    requires Value(a, acc).Some?
    ensures UnitsValue(Append(a, b), acc) == UnitsValue(b, Value(a, acc).value)
  {
    if a.Char? { UnitsOfAppend(a.rest, b, 10 * acc + (a.c as int - '0' as int)); }
  }

  lemma TwelveDigits()
    ensures Power(12) == UNITS
  {
    assert Power(4) == 10_000;
    assert Power(8) == 100_000_000;
  }

  lemma IntReadsBack(n: int)
    ensures IntValue(ShowInt(n)) == Some(n)
  {
    DigitsReadBack(if n < 0 then -n else n);
  }

  lemma UnitsReadBack(n: nat)
    ensures UnitsValue(ShowUnits(n), 0) == Some(n)
  {
    var whole, part := n / UNITS, n % UNITS;
    TwelveDigits();
    DigitsReadBack(whole);
    UnitsOfAppend(Digits(whole), Char('.', Padded(part, 12)), 0);
    PaddedSize(part, 12);
    PaddedReadBack(part, 12, whole);
  }
}
