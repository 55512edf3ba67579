/** Cents printed as dollars (`money`), and read back. */
module Money {
  import Decimal

  /** `toLocaleString('en-US')` of a whole number: commas every three digits. */
  function Grouped(n: nat): string {
    if n < 1000 then Decimal.Digits(n) else Grouped(n / 1000) + "," + Padded(n % 1000, 3)
  }

  /** `padStart(width, '0')` of a number of at most that many digits. */
  function Padded(n: nat, width: nat): (s: string)
    ensures |s| == width && Decimal.AllDigits(s)
  {
    if width == 0 then "" else Padded(n / 10, width - 1) + [Decimal.DigitChar(n % 10)]
  }

  function Abs(n: int): nat { if n < 0 then -n else n }

  /** What is printed behind the sign. */
  function Unsigned(n: nat): string {
    ['$'] + Grouped(n / 100) + ['.'] + Padded(n % 100, 2)
  }

  /** `money`. */
  function MoneyText(cents: int): string {
    if cents < 0 then ['-'] + Unsigned(Abs(cents)) else Unsigned(Abs(cents))
  }

  // -------------------------------------------------------------------------
  // Reading
  // -------------------------------------------------------------------------

  datatype Option<+T> = None | Some(value: T)

  /** A whole number with a comma before every three digits from the right, and nowhere else. */
  function ReadGrouped(s: string): Option<nat> {
    if |s| <= 3 then if s != "" && Decimal.AllDigits(s) then Some(Decimal.Value(s)) else None
    else
      var (head, tail) := (s[..|s| - 4], s[|s| - 3..]);
      var before := ReadGrouped(head);
      if before.Some? && s[|s| - 4] == ',' && Decimal.AllDigits(tail) then Some(before.value * 1000 + Decimal.Value(tail)) else None
  }

  /** Dollars, a point and two digits, behind a dollar sign. */
  function ReadAmount(s: string): Option<nat> {
    if |s| < 4 || s[0] != '$' || s[|s| - 3] != '.' || !Decimal.AllDigits(s[|s| - 2..]) then None
    else
      var dollars := ReadGrouped(s[1..|s| - 3]);
      if dollars.None? then None else Some(dollars.value * 100 + Decimal.Value(s[|s| - 2..]))
  }

  /** The cents a text says, or nothing for a text that is no amount. */
  function CentsOf(s: string): Option<int> {
    var below := s != "" && s[0] == '-';
    var amount := ReadAmount(if below then s[1..] else s);
    if amount.None? then None
    else
      var cents: int := amount.value;
      Some(if below then -cents else cents)
  }

  function Power(n: nat): nat {
    if n == 0 then 1 else 10 * Power(n - 1)
  }

  lemma {:induction false} PaddedReadsBack(n: nat, width: nat)
    requires n < Power(width)
    ensures Decimal.Value(Padded(n, width)) == n
  {
    if width > 0 {
      PaddedReadsBack(n / 10, width - 1);
      assert Padded(n, width)[..width - 1] == Padded(n / 10, width - 1);
    }
  }

  lemma SmallPowers()
    ensures Power(2) == 100 && Power(3) == 1000
  {
    assert Power(1) == 10;
  }

  /** A number below a thousand has at most three digits. */
  lemma ShortDigits(n: nat)
    requires n < 1000
    ensures |Decimal.Digits(n)| <= 3
  {
    if n >= 10 {
      assert |Decimal.Digits(n)| == |Decimal.Digits(n / 10)| + 1;
      if n >= 100 { assert |Decimal.Digits(n / 10)| == |Decimal.Digits(n / 100)| + 1; }
    }
  }

  lemma {:induction false} GroupedReadsBack(n: nat)
    ensures ReadGrouped(Grouped(n)) == Some(n)
  {
    if n < 1000 {
      ShortDigits(n);
      Decimal.DigitsReadBack(n);
    } else {
      GroupedReadsBack(n / 1000);
      SmallPowers();
      PaddedReadsBack(n % 1000, 3);
      OneGroup(Grouped(n / 1000), Padded(n % 1000, 3), n / 1000);
    }
  }

  lemma OneGroup(head: string, tail: string, n: nat)
    requires ReadGrouped(head) == Some(n) && |tail| == 3 && Decimal.AllDigits(tail)
    ensures ReadGrouped(head + "," + tail) == Some(n * 1000 + Decimal.Value(tail))
  {
    var s := head + "," + tail;
    assert s[..|s| - 4] == head && s[|s| - 3..] == tail && s[|s| - 4] == ',';
  }

  lemma OneAmount(dollars: string, small: string, n: nat)
    requires ReadGrouped(dollars) == Some(n) && |small| == 2 && Decimal.AllDigits(small)
    ensures ReadAmount(['$'] + dollars + ['.'] + small) == Some(n * 100 + Decimal.Value(small))
  {
    var s := ['$'] + dollars + ['.'] + small;
    assert dollars != "";
    assert s[1..|s| - 3] == dollars && s[|s| - 2..] == small && s[|s| - 3] == '.';
  }

  lemma Signed(rest: string, cents: int)
    requires ReadAmount(rest).Some? && ReadAmount(rest).value == cents
    ensures CentsOf(rest) == Some(cents) && CentsOf(['-'] + rest) == Some(-cents)
  {
    assert (['-'] + rest)[1..] == rest;
  }

  lemma UnsignedReadsBack(n: nat)
    ensures ReadAmount(Unsigned(n)) == Some(n)
  {
    GroupedReadsBack(n / 100);
    SmallPowers();
    PaddedReadsBack(n % 100, 2);
    OneAmount(Grouped(n / 100), Padded(n % 100, 2), n / 100);
  }

  /** Every whole number of cents reads back from what is printed. */
  lemma MoneyReadsBack(cents: int)
    ensures CentsOf(MoneyText(cents)) == Some(cents)
  {
    UnsignedReadsBack(Abs(cents));
    Signed(Unsigned(Abs(cents)), Abs(cents));
  }

  /** So no two amounts print alike. */
  lemma NoTwoPrintAlike(a: int, b: int)
    requires MoneyText(a) == MoneyText(b)
    ensures a == b
  {
    MoneyReadsBack(a);
    MoneyReadsBack(b);
  }

  lemma {:induction false} DigitsLead(n: nat)
    ensures Decimal.Digits(n)[0] == '0' <==> n == 0
  {
    if n >= 10 { DigitsLead(n / 10); }
  }

  /** No amount is printed with a zero too many in front: nothing but a whole number of no dollars starts with one. */
  lemma {:induction false} NoLeadingZero(n: nat)
    ensures |Grouped(n)| > 0 && (Grouped(n)[0] == '0' <==> n == 0) && (n == 0 ==> Grouped(n) == "0")
  {
    if n < 1000 { DigitsLead(n); } else { NoLeadingZero(n / 1000); }
  }

  /** A sign is printed exactly below zero, in front of the dollar sign. */
  lemma SignedBelowZero(cents: int)
    ensures var text := MoneyText(cents);
            if cents < 0 then |text| > 1 && text[0] == '-' && text[1] == '$' else text[0] == '$'
  {
    assert Unsigned(Abs(cents))[0] == '$';
  }
}
