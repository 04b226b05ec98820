/**
 reports.normalizeAmount: spreadsheet amounts through float64 and back to two decimals. A float64 is a real
 number here; rounding to the nearest one is an arbitrary function of the exact decimal value.
 */
module AmountInput {
  import opened Wrappers
  import opened Text
  import opened Amounts

  /**
   round is what ParseFloat makes of a non-negative decimal value, None for an out-of-range error; other is
   the whole outcome for text that is not a plain decimal (exponents, hexadecimal, inf, nan, garbage).
   */
  datatype Floats = Floats(round: real -> Option<real>, other: string -> Option<string>)

  const TWO_53: real := 9007199254740992.0

  /** Relative error at most 2^-53, over the amounts a NUMERIC(14,2) column can hold. */
  ghost predicate Accurate(f: Floats) {
    forall x: real :: x == 0.0 || 0.01 <= x <= 1000000000000.0 ==>
      f.round(x).Some? && -x <= (f.round(x).value - x) * TWO_53 <= x
  }

  // ---- cleaning ----

  const NBSP: char := '\U{A0}'

  function Stripped(s: string): string { Without(Without(Trim(s), ' '), NBSP) }

  /** A comma is the decimal mark when there is no dot, and a thousands separator otherwise. */
  function Marks(s: string): string {
    if ',' in s && '.' !in s then Replace(s, ',', '.') else Without(s, ',')
  }

  function TrimPlus(s: string): string {
    if s != "" && s[0] == '+' then TrimPlus(s[1..]) else s
  }

  function Cleaned(s: string): string { TrimPlus(Marks(Stripped(s))) }

  // ---- parsing and printing ----

  /** Plain decimal text: the digits before and after the dot. */
  datatype Decimal = Decimal(negative: bool, whole: string, fraction: string)

  predicate IsDecimal(d: Decimal) { AllDigits(d.whole) && AllDigits(d.fraction) && |d.whole| + |d.fraction| >= 1 }

  function PlainDecimal(s: string): (r: Option<Decimal>)
    ensures r.Some? ==> IsDecimal(r.value)
  {
    var negative := s != "" && s[0] == '-';
    var body := if negative then s[1..] else s;
    var i := IndexOf(body, '.');
    var d := Decimal(negative, body[..i], if i < |body| then body[i + 1..] else "");
    if IsDecimal(d) then Some(d) else None
  }

  function Magnitude(d: Decimal): real
    requires IsDecimal(d)
  {
    AppendDigits(d.whole, d.fraction);
    DigitsValue(d.whole + d.fraction) as real / Pow10(|d.fraction|) as real
  }

  lemma AppendDigits(a: string, b: string)
    requires AllDigits(a) && AllDigits(b)
    ensures AllDigits(a + b)
  {}

  /** Round half to even, as FormatFloat does on the exact binary value. */
  function RoundHalfEven(x: real): (n: nat)
    requires x >= 0.0
  {
    var f := x.Floor;
    var r := x - f as real;
    if r < 0.5 || (r == 0.5 && f % 2 == 0) then f else f + 1
  }

  /** FormatFloat(v, 'f', 2, 64) after the sign has been dropped; a negative zero keeps its sign. */
  function TwoDecimals(negative: bool, v: real): string {
    if negative && v == 0.0 then "-0.00" else AmountText(RoundHalfEven(100.0 * Size(v)))
  }

  function Size(v: real): (r: real)
    ensures r >= 0.0
  {
    if v < 0.0 then -v else v
  }

  /** normalizeAmount; None is an error. */
  function NormalizeAmount(f: Floats, s: string): Option<string> {
    match PlainDecimal(Cleaned(s))
    case None => f.other(Cleaned(s))
    case Some(d) => match f.round(Magnitude(d)) case None => None case Some(v) => Some(TwoDecimals(d.negative, v))
  }

  // ---- exactness ----

  /** The float64 nearest to n hundredths is less than half a cent away, so it prints as n again. */
  lemma CentsSurvive(f: Floats, n: nat)
    requires Accurate(f) && n < CENTS_LIMIT
    ensures f.round(n as real / 100.0).Some?
    ensures var v := f.round(n as real / 100.0).value;
            && v >= 0.0 && -0.005 < v - n as real / 100.0 < 0.005
            && RoundHalfEven(100.0 * v) == n && (v == 0.0 <==> n == 0)
  {
    var x := n as real / 100.0;
    assert x == 0.0 || 0.01 <= x <= 1000000000000.0;
    var v := f.round(x).value;
    hide Accurate;
    ErrorBound(x, v);
    NearestCent(n, 100.0 * v);
  }

  lemma ErrorBound(x: real, v: real)
    requires 0.0 <= x <= 1000000000000.0 && -x <= (v - x) * TWO_53 <= x && (x == 0.0 || x >= 0.01)
    ensures -0.001 < v - x < 0.001 && (v == 0.0 <==> x == 0.0) && v >= 0.0
  {}

  lemma NearestCent(n: nat, y: real)
    requires y >= 0.0 && -0.5 < y - n as real < 0.5
    ensures RoundHalfEven(y) == n
  {
    if y >= n as real { assert y.Floor == n; } else { assert y.Floor == n - 1; }
  }

  /** The hundredths a decimal with at most two fraction digits stands for. */
  function Cents(d: Decimal): nat
    requires IsDecimal(d) && |d.fraction| <= 2
  {
    AppendDigits(d.whole, d.fraction);
    DigitsValue(d.whole + d.fraction) * Pow10(2 - |d.fraction|)
  }

  lemma MagnitudeIsCents(d: Decimal)
    requires IsDecimal(d) && |d.fraction| <= 2
    ensures Magnitude(d) == Cents(d) as real / 100.0
  {
    AppendDigits(d.whole, d.fraction);
    var v := DigitsValue(d.whole + d.fraction);
    Powers();
    hide DigitsValue, Pow10;
    if |d.fraction| == 0 { assert Magnitude(d) == v as real; assert Cents(d) == v * 100; }
    else if |d.fraction| == 1 { assert Magnitude(d) == v as real / 10.0; assert Cents(d) == v * 10; }
    else { assert Magnitude(d) == v as real / 100.0; assert Cents(d) == v; }
  }

  lemma Powers()
    ensures Pow10(0) == 1 && Pow10(1) == 10 && Pow10(2) == 100
  {}

  lemma ShortDecimalFits(d: Decimal)
    requires IsDecimal(d) && |d.whole| <= 12 && |d.fraction| <= 2
    ensures Cents(d) < CENTS_LIMIT
  {
    AppendDigits(d.whole, d.fraction);
    var s := d.whole + d.fraction;
    DigitsBound(s);
    PowerAdd(|s|, 2 - |d.fraction|);
    Scale(DigitsValue(s), Pow10(|s|), Pow10(2 - |d.fraction|));
    PowerUpTo14(|s| + (2 - |d.fraction|));
  }

  lemma Scale(a: nat, b: nat, c: nat)
    requires a < b && c >= 1
    ensures a * c < b * c
  {}

  lemma {:induction false} PowerAdd(a: nat, b: nat)
    ensures Pow10(a) * Pow10(b) == Pow10(a + b)
    decreases b
  {
    if b > 0 {
      PowerAdd(a, b - 1);
      assert Pow10(a + b) == 10 * Pow10(a + b - 1);
      assert Pow10(a) * Pow10(b) == 10 * (Pow10(a) * Pow10(b - 1));
    }
  }

  lemma {:induction false} PowerUpTo14(k: nat)
    requires k <= 14
    ensures Pow10(k) <= CENTS_LIMIT
  {
    PowerGrows(k, 14);
    PowerOf14(14);
  }

  lemma {:induction false} PowerGrows(j: nat, k: nat)
    requires j <= k
    ensures Pow10(j) <= Pow10(k)
    decreases k
  {
    if j < k { PowerGrows(j, k - 1); }
  }

  lemma PowerOf14(k: nat)
    requires k == 14
    ensures Pow10(k) == CENTS_LIMIT
  {
    assert Pow10(k - 12) == 100;
    assert Pow10(k - 10) == 10_000;
    assert Pow10(k - 8) == 1_000_000;
    assert Pow10(k - 6) == 100_000_000;
    assert Pow10(k - 4) == 10_000_000_000;
    assert Pow10(k - 2) == 1_000_000_000_000;
  }

  /** Two decimals of exactly this many hundredths. */
  function ExactText(negative: bool, cents: nat): string {
    if negative && cents == 0 then "-0.00" else AmountText(cents)
  }

  lemma DecimalExact(f: Floats, d: Decimal)
    requires Accurate(f) && IsDecimal(d) && |d.whole| <= 12 && |d.fraction| <= 2
    ensures f.round(Magnitude(d)).Some? && TwoDecimals(d.negative, f.round(Magnitude(d)).value) ==
            ExactText(d.negative, Cents(d))
  {
    hide Accurate, Cents, Magnitude, AmountText, RoundHalfEven;
    ShortDecimalFits(d);
    MagnitudeIsCents(d);
    CentsSurvive(f, Cents(d));
  }

  /** Up to 12 integer and 2 fraction digits, the result is the exact magnitude with two decimals. */
  lemma ShortDecimalExact(f: Floats, s: string)
    requires Accurate(f) && PlainDecimal(Cleaned(s)).Some?
    requires var d := PlainDecimal(Cleaned(s)).value; |d.whole| <= 12 && |d.fraction| <= 2
    ensures var d := PlainDecimal(Cleaned(s)).value; NormalizeAmount(f, s) == Some(ExactText(d.negative, Cents(d)))
  {
    hide Cleaned, PlainDecimal, Accurate, Cents, Magnitude, TwoDecimals, ExactText;
    DecimalExact(f, PlainDecimal(Cleaned(s)).value);
  }

  // ---- spellings ----

  predicate Digits(s: string) { s != "" && AllDigits(s) }

  /** The only white space is spaces and no-break spaces. */
  predicate OnlySpaces(s: string) { forall i :: 0 <= i < |s| && IsSpace(s[i]) ==> s[i] == ' ' || s[i] == NBSP }

  /** s without its spaces. */
  function Dense(s: string): string { Without(Without(s, ' '), NBSP) }

  lemma WithoutCons(x: char, rest: string, c: char)
    ensures Without([x] + rest, c) == (if x == c then "" else [x]) + Without(rest, c)
  {
    assert ([x] + rest)[1..] == rest;
  }

  lemma WithoutNone(s: string, c: char)
    requires s == ""
    ensures Without(s, c) == ""
  {}

  lemma {:induction false} WithoutAppend(a: string, b: string, c: char)
    ensures Without(a + b, c) == Without(a, c) + Without(b, c)
    decreases |a|
  {
    hide Without;
    if a == "" {
      WithoutNone(a, c);
      assert a + b == b;
    } else {
      var rest := a[1..];
      WithoutAppend(rest, b, c);
      assert a == [a[0]] + rest && a + b == [a[0]] + (rest + b);
      WithoutCons(a[0], rest, c);
      WithoutCons(a[0], rest + b, c);
    }
  }

  lemma {:induction false} SpacesVanish(s: string)
    requires forall i :: 0 <= i < |s| ==> s[i] == ' ' || s[i] == NBSP
    ensures Dense(s) == ""
    decreases |s|
  {
    if s != "" {
      SpacesVanish(s[1..]);
      WithoutAppend([s[0]], s[1..], ' ');
      assert s == [s[0]] + s[1..];
      WithoutAppend(Without([s[0]], ' '), Without(s[1..], ' '), NBSP);
      OneSpace(s[0]);
    }
  }

  lemma OneSpace(c: char)
    requires c == ' ' || c == NBSP
    ensures Dense([c]) == ""
  {
    WithoutOne(c, ' ');
    if c != ' ' { WithoutOne(c, NBSP); }
  }

  lemma WithoutOne(c: char, d: char)
    ensures Without([c], d) == if c == d then "" else [c]
  {
    assert [c][1..] == "";
  }

  lemma DenseAppend(a: string, b: string)
    ensures Dense(a + b) == Dense(a) + Dense(b)
  {
    WithoutAppend(a, b, ' ');
    WithoutAppend(Without(a, ' '), Without(b, ' '), NBSP);
  }

  /** What Trim takes off: some prefix and some suffix of white space. */
  lemma TrimParts(s: string) returns (before: string, after: string)
    ensures s == before + Trim(s) + after
    ensures forall i :: 0 <= i < |before| ==> IsSpace(before[i])
    ensures forall i :: 0 <= i < |after| ==> IsSpace(after[i])
  {
    hide TrimLeft, TrimRight;
    var l := TrimLeft(s);
    before := s[..|s| - |l|];
    after := l[|Trim(s)|..];
    TrimRightTail(l);
  }

  lemma {:induction false} TrimRightTail(s: string)
    ensures forall i :: |TrimRight(s)| <= i < |s| ==> IsSpace(s[i])
  {
    if s != "" && IsSpace(s[|s| - 1]) { TrimRightTail(s[..|s| - 1]); }
  }

  /** With no other white space, trimming first makes no difference. */
  lemma StrippedIsDense(s: string)
    requires OnlySpaces(s)
    ensures Stripped(s) == Dense(s)
  {
    var before, after := TrimParts(s);
    hide Trim, Dense;
    assert forall i :: 0 <= i < |before| ==> before[i] == s[i];
    assert forall i :: 0 <= i < |after| ==> after[i] == s[|before| + |Trim(s)| + i];
    SpacesVanish(before);
    SpacesVanish(after);
    DenseAppend(before + Trim(s), after);
    DenseAppend(before, Trim(s));
    StrippedTrims(s);
  }

  lemma StrippedTrims(s: string)
    ensures Stripped(s) == Dense(Trim(s))
  {}

  /** The accepted spellings of a two-part amount: an optional plus, and a dot or a comma. */
  function Spelled(plus: bool, whole: string, mark: char, fraction: string): string {
    (if plus then "+" else "") + whole + [mark] + fraction
  }

  lemma MarksDecimal(plus: bool, whole: string, mark: char, fraction: string)
    requires Digits(whole) && AllDigits(fraction) && (mark == '.' || mark == ',')
    ensures Marks(Spelled(plus, whole, mark, fraction)) == Spelled(plus, whole, '.', fraction)
  {
    var s := Spelled(plus, whole, mark, fraction);
    var p := if plus then 1 else 0;
    assert s[p + |whole|] == mark;
    forall i | 0 <= i < |s| && i != p + |whole| ensures s[i] != '.' && s[i] != ',' {
      if p <= i < p + |whole| { assert s[i] == whole[i - p]; }
      else if i > p + |whole| { assert s[i] == fraction[i - p - |whole| - 1]; }
    }
    if mark == ',' {
      assert Replace(s, ',', '.') == Spelled(plus, whole, '.', fraction);
    } else {
      WithoutAbsent(s, ',');
    }
  }

  lemma PlusDropped(plus: bool, whole: string, fraction: string)
    requires Digits(whole)
    ensures TrimPlus(Spelled(plus, whole, '.', fraction)) == whole + ['.'] + fraction
  {
    var rest := whole + ['.'] + fraction;
    assert rest[0] == whole[0] && IsDigit(whole[0]);
    assert TrimPlus(rest) == rest;
    if plus { assert Spelled(plus, whole, '.', fraction)[1..] == rest; }
    else { assert Spelled(plus, whole, '.', fraction) == rest; }
  }

  lemma PlainSplits(whole: string, fraction: string)
    requires Digits(whole) && AllDigits(fraction)
    ensures PlainDecimal(whole + ['.'] + fraction) == Some(Decimal(false, whole, fraction))
  {
    var s := whole + ['.'] + fraction;
    assert s[0] == whole[0] && IsDigit(whole[0]);
    assert '.' !in whole;
    FirstIndex(whole, '.', fraction);
    hide IndexOf;
    assert s[..|whole|] == whole && s[|whole| + 1..] == fraction;
  }

  /** Spaces anywhere, a leading plus and a comma for the dot do not change the amount read. */
  lemma SpellingIgnored(f: Floats, s: string, plus: bool, whole: string, mark: char, fraction: string)
    requires Accurate(f) && OnlySpaces(s) && Dense(s) == Spelled(plus, whole, mark, fraction)
    requires Digits(whole) && |whole| <= 12 && AllDigits(fraction) && |fraction| <= 2 && (mark == '.' || mark == ',')
    ensures NormalizeAmount(f, s) == Some(AmountText(Cents(Decimal(false, whole, fraction))))
  {
    hide OnlySpaces, Dense, Spelled, Stripped, Marks, TrimPlus, PlainDecimal, Accurate, NormalizeAmount, Cents,
         AmountText;
    StrippedIsDense(s);
    MarksDecimal(plus, whole, mark, fraction);
    PlusDropped(plus, whole, fraction);
    PlainSplits(whole, fraction);
    ShortDecimalExact(f, s);
  }

  /** Digits with any number of commas among them. */
  predicate Grouped(s: string) { forall i :: 0 <= i < |s| ==> IsDigit(s[i]) || s[i] == ',' }

  lemma {:induction false} Ungrouped(s: string)
    requires Grouped(s)
    ensures AllDigits(Without(s, ','))
    decreases |s|
  {
    if s != "" {
      assert s == [s[0]] + s[1..];
      Ungrouped(s[1..]);
      WithoutCons(s[0], s[1..], ',');
    }
  }

  /** Before a dot, all commas are thousands separators. */
  lemma ThousandsIgnored(f: Floats, s: string, grouped: string, fraction: string)
    requires Accurate(f) && OnlySpaces(s) && Dense(s) == grouped + ['.'] + fraction
    requires Grouped(grouped) && 1 <= |Without(grouped, ',')| <= 12 && AllDigits(fraction) && |fraction| <= 2
    ensures Digits(Without(grouped, ','))
    ensures NormalizeAmount(f, s) == Some(AmountText(Cents(Decimal(false, Without(grouped, ','), fraction))))
  {
    var whole := Without(grouped, ',');
    Ungrouped(grouped);
    assert Spelled(false, whole, '.', fraction) == whole + ['.'] + fraction;
    hide OnlySpaces, Dense, Stripped, Marks, TrimPlus, PlainDecimal, Accurate, NormalizeAmount, Cents, AmountText,
         Spelled, AllDigits, Without;
    StrippedIsDense(s);
    MarksThousands(grouped, fraction);
    PlusDropped(false, whole, fraction);
    PlainSplits(whole, fraction);
    ShortDecimalExact(f, s);
  }

  lemma MarksThousands(grouped: string, fraction: string)
    requires AllDigits(fraction)
    ensures Marks(grouped + ['.'] + fraction) == Without(grouped, ',') + ['.'] + fraction
  {
    hide Without, Replace;
    var s := grouped + ['.'] + fraction;
    assert s[|grouped|] == '.';
    assert s == grouped + (['.'] + fraction);
    WithoutAppend(grouped, ['.'] + fraction, ',');
    WithoutAbsent(['.'] + fraction, ',');
  }

  lemma PlainWhole(whole: string)
    requires Digits(whole)
    ensures PlainDecimal(whole) == Some(Decimal(false, whole, "")) && TrimPlus(whole) == whole && Marks(whole) == whole
  {
    assert IsDigit(whole[0]) && '.' !in whole && ',' !in whole;
    WithoutAbsent(whole, ',');
    hide Without, Replace;
    assert whole[..|whole|] == whole;
  }

  /** An amount without a decimal mark is a whole number of units. */
  lemma WholeAmount(f: Floats, s: string, whole: string)
    requires Accurate(f) && OnlySpaces(s) && Dense(s) == whole && Digits(whole) && |whole| <= 12
    ensures NormalizeAmount(f, s) == Some(AmountText(Cents(Decimal(false, whole, ""))))
  {
    hide OnlySpaces, Dense, Stripped, Marks, TrimPlus, PlainDecimal, Accurate, NormalizeAmount, Cents, AmountText;
    StrippedIsDense(s);
    PlainWhole(whole);
    ShortDecimalExact(f, s);
  }

  // ---- its own output ----

  lemma AmountParts(cents: nat)
    requires cents < CENTS_LIMIT
    ensures var a, b := NatText(cents / 100), ZeroPad(cents % 100, 2);
            && AmountText(cents) == Spelled(false, a, '.', b)
            && Digits(a) && |a| <= 12 && AllDigits(b) && |b| == 2 && Cents(Decimal(false, a, b)) == cents
  {
    var a, b := NatText(cents / 100), ZeroPad(cents % 100, 2);
    PadWidth2(cents % 100);
    NatTextLength(cents / 100, 12);
    AppendDigits(a, b);
    DigitsAppend(a, b);
    NatTextValue(cents / 100);
    ZeroPadValue(cents % 100, 2);
    Powers();
    hide DigitsValue, NatText, ZeroPad;
  }

  lemma {:induction false} NatTextLength(n: nat, k: nat)
    requires k >= 1 && n < Pow10(k)
    ensures |NatText(n)| <= k
    decreases k
  {
    if n >= 10 {
      assert k > 1;
      NatTextLength(n / 10, k - 1);
    }
  }

  lemma DigitsAreDense(s: string)
    requires forall i :: 0 <= i < |s| ==> IsDigit(s[i]) || s[i] == '.' || s[i] == '-'
    ensures OnlySpaces(s) && Dense(s) == s
  {
    WithoutAbsent(s, ' ');
    WithoutAbsent(s, NBSP);
  }

  /** Digits, dots and minus signs pass the cleaning unchanged. */
  lemma CleanedAlready(s: string)
    requires forall i :: 0 <= i < |s| ==> IsDigit(s[i]) || s[i] == '.' || s[i] == '-'
    ensures Cleaned(s) == s
  {
    DigitsAreDense(s);
    StrippedIsDense(s);
    WithoutAbsent(s, ',');
  }

  /** A stored amount's text normalises to itself. */
  lemma AmountTextNormal(f: Floats, cents: nat)
    requires Accurate(f) && cents < CENTS_LIMIT
    ensures NormalizeAmount(f, AmountText(cents)) == Some(AmountText(cents))
  {
    var a, b := NatText(cents / 100), ZeroPad(cents % 100, 2);
    AmountParts(cents);
    var s := AmountText(cents);
    forall i | 0 <= i < |s| ensures IsDigit(s[i]) || s[i] == '.' {
      if i < |a| { assert s[i] == a[i]; } else if i > |a| { assert s[i] == b[i - |a| - 1]; }
    }
    DigitsAreDense(s);
    SpellingIgnored(f, s, false, a, '.', b);
  }

  lemma NormalizesTo(f: Floats, s: string, d: Decimal, v: real)
    requires PlainDecimal(Cleaned(s)) == Some(d) && f.round(Magnitude(d)) == Some(v)
    ensures NormalizeAmount(f, s) == Some(TwoDecimals(d.negative, v))
  {
    hide PlainDecimal, Cleaned, Magnitude, TwoDecimals;
  }

  /** Normalising twice is normalising once, for every plain decimal whose result is below 10^12. */
  lemma NormalizeIdempotent(f: Floats, s: string, d: Decimal, v: real)
    requires Accurate(f) && PlainDecimal(Cleaned(s)) == Some(d) && f.round(Magnitude(d)) == Some(v)
    requires RoundHalfEven(100.0 * Size(v)) < CENTS_LIMIT
    ensures NormalizeAmount(f, s).Some? && NormalizeAmount(f, NormalizeAmount(f, s).value) == NormalizeAmount(f, s)
  {
    hide NormalizeAmount, Accurate, Cleaned, PlainDecimal, Magnitude, TwoDecimals, RoundHalfEven;
    NormalizesTo(f, s, d, v);
    TwoDecimalsNormal(f, d.negative, v);
  }

  lemma TwoDecimalsNormal(f: Floats, negative: bool, v: real)
    requires Accurate(f) && RoundHalfEven(100.0 * Size(v)) < CENTS_LIMIT
    ensures NormalizeAmount(f, TwoDecimals(negative, v)) == Some(TwoDecimals(negative, v))
  {
    hide Accurate, NormalizeAmount, AmountText, RoundHalfEven;
    if negative && v == 0.0 {
      NegativeZeroNormal(f, "-0.00");
    } else {
      AmountTextNormal(f, RoundHalfEven(100.0 * Size(v)));
    }
  }

  lemma NegativeZeroNormal(f: Floats, s: string)
    requires Accurate(f) && s == "-0.00"
    ensures NormalizeAmount(f, s) == Some(s)
  {
    hide *;
    var d := NegativeZeroRead(s);
    ShortDecimalExact(f, s);
    NegativeZeroText(d);
  }

  lemma NegativeZeroRead(s: string) returns (d: Decimal)
    requires s == "-0.00"
    ensures PlainDecimal(Cleaned(s)) == Some(d) && d.negative && |d.whole| <= 12 && |d.fraction| <= 2 && Cents(d) == 0
  {
    var zero, fraction := NegativeZeroShape(s);
    d := Decimal(true, zero, fraction);
    ZeroCents(d);
    hide Cleaned, PlainDecimal, Cents;
    CleanedAlready(s);
    NegativeSplits(zero, fraction);
  }

  lemma NegativeZeroShape(s: string) returns (zero: string, fraction: string)
    requires s == "-0.00"
    ensures s == "-" + (zero + ['.'] + fraction) && |zero| == 1 && |fraction| == 2
    ensures (forall i :: 0 <= i < |zero| ==> zero[i] == '0') && forall i :: 0 <= i < |fraction| ==> fraction[i] == '0'
  {
    zero, fraction := s[1..2], s[3..];
  }

  lemma ZeroCents(d: Decimal)
    requires |d.fraction| == 2 && d.whole != ""
    requires (forall i :: 0 <= i < |d.whole| ==> d.whole[i] == '0') && forall i :: 0 <= i < |d.fraction| ==>
             d.fraction[i] == '0'
    ensures IsDecimal(d) && Cents(d) == 0
  {
    ZerosAreZero(d.whole + d.fraction);
  }

  lemma NegativeZeroText(d: Decimal)
    requires IsDecimal(d) && |d.fraction| <= 2 && d.negative && Cents(d) == 0
    ensures ExactText(d.negative, Cents(d)) == "-0.00"
  {}

  lemma NegativeSplits(whole: string, fraction: string)
    requires Digits(whole) && AllDigits(fraction)
    ensures PlainDecimal("-" + (whole + ['.'] + fraction)) == Some(Decimal(true, whole, fraction))
  {
    var body := whole + ['.'] + fraction;
    var s := "-" + body;
    assert s[1..] == body;
    assert '.' !in whole;
    FirstIndex(whole, '.', fraction);
    hide IndexOf;
    assert body[..|whole|] == whole && body[|whole| + 1..] == fraction;
  }

  lemma {:induction false} ZerosAreZero(s: string)
    requires forall i :: 0 <= i < |s| ==> s[i] == '0'
    ensures AllDigits(s) && DigitsValue(s) == 0
  {
    if s != "" { ZerosAreZero(s[..|s| - 1]); }
  }
}
