/** Which texts an import reads as which day, for all four layouts. */
module ReportDates {
  import opened Wrappers
  import opened Text
  import opened Calendar
  import opened ReportFields

  // ---- the four spellings of a day ----

  function Year(day: int): string
    requires 0 <= YearOf(day)
  {
    ZeroPad(YearOf(day), 4)
  }

  function Month(day: int): string { ZeroPad(MonthOf(day) % 12 + 1, 2) }

  function OfMonth(day: int): string { ZeroPad(DayOfMonth(day), 2) }

  function YearMonthDay(day: int, sep: char): string
    requires 0 <= YearOf(day)
  {
    Year(day) + [sep] + Month(day) + [sep] + OfMonth(day)
  }

  function DayMonthYear(day: int, sep: char): string
    requires 0 <= YearOf(day)
  {
    OfMonth(day) + [sep] + Month(day) + [sep] + Year(day)
  }

  /** yyyy-mm-dd, dd.mm.yyyy, yyyy/mm/dd or dd/mm/yyyy of a day in the years 0 to 9999. */
  predicate Spells(t: string, day: int) {
    && 0 <= YearOf(day) <= 9999
    && (t == YearMonthDay(day, '-') || t == DayMonthYear(day, '.') || t == YearMonthDay(day, '/')
        || t == DayMonthYear(day, '/'))
  }

  // ---- every spelling is read ----

  lemma PartLengths(day: int)
    requires 0 <= YearOf(day) <= 9999
    ensures |Year(day)| == 4 && |Month(day)| == 2 && |OfMonth(day)| == 2
  {
    hide MonthOf, DayOfMonth, ZeroPad;
    FourDigits(YearOf(day));
    FieldsOfDate(day);
  }

  lemma PartsBack(a: string, b: string, c: string, sep: char)
    ensures var t := a + [sep] + b + [sep] + c;
            && |t| == |a| + |b| + |c| + 2 && t[|a|] == sep && t[|a| + |b| + 1] == sep
            && t[..|a|] == a && t[|a| + 1..|a| + |b| + 1] == b && t[|a| + |b| + 2..] == c
  {}

  lemma YearFirstReads(day: int, sep: char)
    requires 0 <= YearOf(day) <= 9999
    ensures YearFirst(YearMonthDay(day, sep), sep) == Some(day)
  {
    PartLengths(day);
    DayOfParts(day);
    PartsBack(Year(day), Month(day), OfMonth(day), sep);
    hide ZeroPad, MonthOf, DayOfMonth, Day;
  }

  lemma DayFirstReads(day: int, sep: char)
    requires 0 <= YearOf(day) <= 9999
    ensures DayFirst(DayMonthYear(day, sep), sep) == Some(day)
  {
    PartLengths(day);
    DayOfParts(day);
    PartsBack(OfMonth(day), Month(day), Year(day), sep);
    hide ZeroPad, MonthOf, DayOfMonth, Day;
  }

  // ---- nothing else is ----

  lemma {:induction false} DigitsIdentify(s: string, t: string)
    requires AllDigits(s) && AllDigits(t) && |s| == |t| && DigitsValue(s) == DigitsValue(t)
    ensures s == t
    decreases |s|
  {
    if s != "" {
      var i, j := s[..|s| - 1], t[..|t| - 1];
      var c, d := s[|s| - 1], t[|t| - 1];
      assert s == i + [c] && t == j + [d];
      assert DigitsValue(s) == DigitsValue(i) * 10 + DigitValue(c);
      assert DigitsValue(t) == DigitsValue(j) * 10 + DigitValue(d);
      DigitsIdentify(i, j);
    }
  }

  lemma PadOfValue(s: string)
    requires AllDigits(s) && (|s| == 2 || |s| == 4)
    ensures ZeroPad(DigitsValue(s), |s|) == s && DigitsValue(s) <= 9999
  {
    DigitsBound(s);
    Hundreds();
    ZeroPadValue(DigitsValue(s), |s|);
    if |s| == 2 { PadWidth2(DigitsValue(s)); } else { PadWidth4(DigitsValue(s)); }
    hide ZeroPad, DigitsValue;
    DigitsIdentify(ZeroPad(DigitsValue(s), |s|), s);
  }

  lemma Hundreds()
    ensures Pow10(2) == 100 && Pow10(4) == 10000
  {
    assert Pow10(1) == 10;
    assert Pow10(3) == 1000;
  }

  lemma DateParts(y: int, m: int, d: int, day: int)
    requires 1 <= m <= 12 && 1 <= d <= DaysInMonth(y, m - 1) && day == DateDay(12 * y + m - 1, d)
    ensures MonthOf(day) / 12 == y && MonthOf(day) % 12 + 1 == m && DayOfMonth(day) == d
  {
    var k := 12 * y + m - 1;
    MonthNumber(y, m);
    hide FirstOfMonth;
    MonthUnique(day, k);
  }

  lemma MonthNumber(y: int, m: int)
    requires 1 <= m <= 12
    ensures (12 * y + m - 1) / 12 == y && (12 * y + m - 1) % 12 == m - 1
  {}

  /** Parts that name a day are that day's. */
  lemma PartsOfDay(year: string, month: string, day: string, n: int)
    requires Day(year, month, day) == Some(n)
    ensures 0 <= YearOf(n) <= 9999 && year == Year(n) && month == Month(n) && day == OfMonth(n)
  {
    PadOfValue(year);
    PadOfValue(month);
    PadOfValue(day);
    hide DigitsValue, ZeroPad, DaysInMonth, DateDay, MonthOf, DayOfMonth;
    DateParts(DigitsValue(year), DigitsValue(month), DigitsValue(day), n);
  }

  lemma YearFirstIff(t: string, sep: char, day: int)
    ensures YearFirst(t, sep) == Some(day) <==> 0 <= YearOf(day) <= 9999 && t == YearMonthDay(day, sep)
  {
    hide Day, Year, Month, OfMonth, YearOf;
    if YearFirst(t, sep) == Some(day) {
      PartsOfDay(t[..4], t[5..7], t[8..], day);
      assert t == t[..4] + [t[4]] + t[5..7] + [t[7]] + t[8..];
    }
    if 0 <= YearOf(day) <= 9999 { YearFirstReads(day, sep); }
  }

  lemma DayFirstIff(t: string, sep: char, day: int)
    ensures DayFirst(t, sep) == Some(day) <==> 0 <= YearOf(day) <= 9999 && t == DayMonthYear(day, sep)
  {
    hide Day, Year, Month, OfMonth, YearOf;
    if DayFirst(t, sep) == Some(day) {
      PartsOfDay(t[6..], t[3..5], t[..2], day);
      assert t == t[..2] + [t[2]] + t[3..5] + [t[5]] + t[6..];
    }
    if 0 <= YearOf(day) <= 9999 { DayFirstReads(day, sep); }
  }

  /**
   A text is read as a day exactly if, trimmed, it is one of the four spellings of that day, which lies in the years
   0 to 9999.
   */
  lemma ParseDateIff(s: string, day: int)
    ensures ParseDate(s) == Some(day) <==> Spells(Trim(s), day)
  {
    var t := Trim(s);
    hide YearFirst, DayFirst, YearMonthDay, DayMonthYear, YearOf, Trim;
    LayoutsExclusive(t);
    YearFirstIff(t, '-', day);
    DayFirstIff(t, '.', day);
    YearFirstIff(t, '/', day);
    DayFirstIff(t, '/', day);
  }

  /** So no text is read as two days, and one that spells none is a bad date. */
  lemma BadDateIff(s: string)
    ensures ParseDate(s) == None <==> forall day :: !Spells(Trim(s), day)
  {
    hide Spells, ParseDate;
    if ParseDate(s).Some? { ParseDateIff(s, ParseDate(s).value); }
    forall day | Spells(Trim(s), day) ensures ParseDate(s).Some? { ParseDateIff(s, day); }
  }
}
