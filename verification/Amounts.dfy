/** Decimal amounts: the text Go prints, the text pgtype.Numeric scans, and the NUMERIC(14,2) column. */
module Amounts {
  import opened Wrappers
  import opened Text

  const MIN_INT64: int := -0x8000_0000_0000_0000

  type Int64 = x: int | -0x8000_0000_0000_0000 <= x < 0x8000_0000_0000_0000

  /** Go's unary minus on int64. */
  function Negate(x: Int64): Int64 { if x == MIN_INT64 then x else -x }

  /** Go's / and %: truncated towards zero. */
  function Quotient(x: int, d: nat): int
    requires d > 0
  {
    if x >= 0 then x / d else -((-x) / d)
  }

  function Remainder(x: int, d: nat): int
    requires d > 0
  {
    x - Quotient(x, d) * d
  }

  /** What %02d prints: the sign counts towards the width. */
  function Pad2(n: int): string { if n >= 0 then ZeroPad(n, 2) else "-" + ZeroPad(-n, 1) }

  /** fmt.Sprintf("%d.%02d", amount/100, amount%100) */
  function MinorUnitsText(amount: int): string {
    IntText(Quotient(amount, 100)) + ['.'] + Pad2(Remainder(amount, 100))
  }

  /** A scanned pgtype.Numeric: coefficient / 10^scale. */
  datatype Numeric = Numeric(coefficient: int, scale: nat)

  /** big.Int.SetString in base 10. */
  function ScanInteger(s: string): Option<int> {
    if s == "" then None
    else if s[0] == '-' || s[0] == '+' then
      if |s| > 1 && AllDigits(s[1..]) then
        var magnitude: int := DigitsValue(s[1..]);
        Some(if s[0] == '-' then -magnitude else magnitude)
      else None
    else if AllDigits(s) then Some(DigitsValue(s)) else None
  }

  /** pgtype.Numeric.Scan: the first dot is taken out and fixes the scale. */
  function ScanNumeric(s: string): Option<Numeric> {
    var i := IndexOf(s, '.');
    var digits := if i == |s| then s else s[..i] + s[i + 1..];
    match ScanInteger(digits)
    case None => None
    case Some(n) => Some(Numeric(n, if i == |s| then 0 else |s| - i - 1))
  }

  /** Round half away from zero, as PostgreSQL does. */
  function RoundDiv(n: int, d: nat): int
    requires d > 0
  {
    if n >= 0 then (2 * n + d) / (2 * d) else -((2 * -n + d) / (2 * d))
  }

  const CENTS_LIMIT: int := 100_000_000_000_000

  /** Storing into NUMERIC(14, 2): hundredths, or None when the value needs more than 12 integer digits. */
  function Store(n: Numeric): Option<int> {
    var cents := if n.scale <= 2 then n.coefficient * Pow10(2 - n.scale)
      else RoundDiv(n.coefficient, Pow10(n.scale - 2));
    if -CENTS_LIMIT < cents < CENTS_LIMIT then Some(cents) else None
  }

  /** NumericFromString followed by the insert. */
  function StoredCents(s: string): Option<int> {
    match ScanNumeric(s)
    case None => None
    case Some(n) => Store(n)
  }

  /** An amount in cents with two decimals: what Sprintf and FormatFloat print. */
  function AmountText(cents: nat): (s: string)
    ensures s != ""
  {
    NatText(cents / 100) + ['.'] + ZeroPad(cents % 100, 2)
  }

  lemma MinorUnitsTextNat(cents: nat)
    ensures MinorUnitsText(cents) == AmountText(cents)
  {}

  lemma ScanAmountText(cents: nat)
    ensures ScanNumeric(AmountText(cents)) == Some(Numeric(cents, 2))
  {
    hide ScanNumeric, NatText, ZeroPad;
    AmountDigits(cents);
    ScanDecimal(NatText(cents / 100), ZeroPad(cents % 100, 2));
  }

  /** The digits of a printed amount, read as one number, are the cents. */
  lemma AmountDigits(cents: nat)
    ensures var a, b := NatText(cents / 100), ZeroPad(cents % 100, 2);
            a != "" && |b| == 2 && AllDigits(a + b) && DigitsValue(a + b) == cents
  {
    var a, b := NatText(cents / 100), ZeroPad(cents % 100, 2);
    PadWidth2(cents % 100);
    NatTextValue(cents / 100);
    ZeroPadValue(cents % 100, 2);
    HundredIsTwoDigits(2);
    hide NatText, ZeroPad, Pow10, DigitsValue;
    DigitsAppend(a, b);
  }

  lemma HundredIsTwoDigits(k: nat)
    requires k == 2
    ensures Pow10(k) == 100
  {
    assert Pow10(k - 1) == 10;
  }

  /** Digits, a dot and digits scan as the digits' number, the scale counting those after the dot. */
  lemma ScanDecimal(a: string, b: string)
    requires a != "" && AllDigits(a + b)
    ensures ScanNumeric(a + ['.'] + b) == Some(Numeric(DigitsValue(a + b), |b|))
  {
    hide DigitsValue, IndexOf, ScanInteger;
    DotAfter(a, b);
    ScanDigits(a + b);
    assert (a + ['.'] + b)[..|a|] == a && (a + ['.'] + b)[|a| + 1..] == b;
  }

  lemma DotAfter(a: string, b: string)
    requires AllDigits(a + b)
    ensures IndexOf(a + ['.'] + b, '.') == |a|
  {
    hide IndexOf;
    DigitsHaveNoDot(a, b);
    FirstIndex(a, '.', b);
  }

  lemma ScanDigits(s: string)
    requires s != "" && AllDigits(s)
    ensures ScanInteger(s) == Some(DigitsValue(s))
  {
    hide DigitsValue;
  }

  lemma DigitsHaveNoDot(a: string, b: string)
    requires AllDigits(a + b)
    ensures '.' !in a
  {
    forall i | 0 <= i < |a| ensures a[i] != '.' { assert a[i] == (a + b)[i]; }
  }

  /** The printed amount is stored as exactly the cents it was printed from, if they fit the column. */
  lemma AmountTextStores(cents: nat)
    ensures StoredCents(AmountText(cents)) == if cents < CENTS_LIMIT then Some(cents) else None
  {
    ScanAmountText(cents);
    assert Pow10(0) == 1;
  }

  lemma SecondSignRejected(a: string, b: string)
    requires a != "" && '.' !in a && b != "" && b[0] == '-'
    ensures ScanNumeric(a + ['.'] + b) == None
  {
    FirstIndex(a, '.', b);
    var s := a + ['.'] + b;
    assert s[..|a|] + s[|a| + 1..] == a + b;
    assert (a + b)[1..][|a| - 1] == '-' && (a + b)[|a|] == '-';
  }

  /** The text of the one amount whose negation overflows: it does not scan. */
  lemma OverflowedTextRejected()
    ensures StoredCents(MinorUnitsText(MIN_INT64)) == None
  {
    assert Remainder(MIN_INT64, 100) == -8;
    SecondSignRejected(IntText(Quotient(MIN_INT64, 100)), Pad2(-8));
  }
}
