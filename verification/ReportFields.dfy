/** The small readers of reports.go: dates, types, header and category keys. Days are numbered as in Calendar. */
module ReportFields {
  import opened Wrappers
  import opened Text
  import opened Calendar
  import opened Kinds

  /** strings.ToLower and strings.ToUpper, one character at a time. */
  datatype Folding = Folding(lower: char -> char, upper: char -> char)

  /** Lower case leaves lower-case Latin letters alone. */
  ghost predicate KeepsLatin(fold: Folding) { forall c: char :: 'a' <= c <= 'z' ==> fold.lower(c) == c }

  function Lower(fold: Folding, s: string): string { MapChars(s, fold.lower) }

  function Upper(fold: Folding, s: string): string { MapChars(s, fold.upper) }

  // ---- dates ----

  function YearText(year: int): string { if year < 0 then "-" + ZeroPad(-year, 4) else ZeroPad(year, 4) }

  /** Format("2006-01-02") */
  function DateText(day: int): string {
    YearText(MonthOf(day) / 12) + ['-'] + ZeroPad(MonthOf(day) % 12 + 1, 2) + ['-'] + ZeroPad(DayOfMonth(day), 2)
  }

  /** The Unix epoch prints as its date in UTC. */
  lemma EpochText(day: int)
    requires day == LocalDay(0, 0)
    ensures DateText(day) == "1970-01-01"
  {
    var k := 12 * 1970;
    TwelfthOf(k, 1970);
    PadEpoch(k / 12, k % 12 + 1);
    hide *;
    EpochDay(k);
    TextOfParts(day, k / 12, k % 12 + 1, 1);
    EpochParts(ZeroPad(k / 12, 4), ZeroPad(k % 12 + 1, 2), ZeroPad(1, 2));
  }

  lemma TextOfParts(day: int, year: nat, month: nat, dayOfMonth: nat)
    requires MonthOf(day) / 12 == year && MonthOf(day) % 12 + 1 == month && DayOfMonth(day) == dayOfMonth
    ensures DateText(day) == ZeroPad(year, 4) + ['-'] + ZeroPad(month, 2) + ['-'] + ZeroPad(dayOfMonth, 2)
  {
    hide MonthOf, DayOfMonth, ZeroPad;
  }

  lemma EpochParts(a: string, b: string, c: string)
    requires a == "1970" && b == "01" && c == "01"
    ensures a + ['-'] + b + ['-'] + c == "1970-01-01"
  {}

  lemma TwelfthOf(k: int, year: int)
    requires k == 12 * year
    ensures k / 12 == year && k % 12 == 0
  {}

  lemma PadEpoch(year: nat, one: nat)
    requires year == 1970 && one == 1
    ensures ZeroPad(year, 4) == "1970" && ZeroPad(one, 2) == "01"
  {
    assert NatText(year / 100) == "19";
    assert NatText(year / 10) == "197";
    assert NatText(year) == "1970";
    assert NatText(one) == "1";
  }

  /** The year a day lies in. */
  function YearOf(day: int): int { MonthOf(day) / 12 }

  /** Four, two and two digits naming a day that exists. */
  function Day(year: string, month: string, day: string): Option<int> {
    if !(|year| == 4 && |month| == 2 && |day| == 2 && AllDigits(year) && AllDigits(month) && AllDigits(day)) then None
    else
      var y, m, d: int := DigitsValue(year), DigitsValue(month), DigitsValue(day);
      if 1 <= m <= 12 && 1 <= d <= DaysInMonth(y, m - 1) then Some(DateDay(12 * y + m - 1, d)) else None
  }

  /** The layouts 2006-01-02 and 2006/01/02. */
  function YearFirst(s: string, sep: char): Option<int> {
    if |s| == 10 && s[4] == sep && s[7] == sep then Day(s[..4], s[5..7], s[8..]) else None
  }

  /** The layouts 02.01.2006 and 02/01/2006. */
  function DayFirst(s: string, sep: char): Option<int> {
    if |s| == 10 && s[2] == sep && s[5] == sep then Day(s[6..], s[3..5], s[..2]) else None
  }

  /** parseDate: the first layout that fits; None is an error. The result is midnight UTC of that day. */
  function ParseDate(s: string): Option<int> {
    var t := Trim(s);
    if YearFirst(t, '-').Some? then YearFirst(t, '-')
    else if DayFirst(t, '.').Some? then DayFirst(t, '.')
    else if YearFirst(t, '/').Some? then YearFirst(t, '/')
    else DayFirst(t, '/')
  }

  /** No text fits two layouts, so their order does not matter. */
  lemma LayoutsExclusive(t: string)
    ensures YearFirst(t, '-').Some? ==> DayFirst(t, '.').None? && YearFirst(t, '/').None? && DayFirst(t, '/').None?
    ensures DayFirst(t, '.').Some? ==> YearFirst(t, '/').None? && DayFirst(t, '/').None?
    ensures YearFirst(t, '/').Some? ==> DayFirst(t, '/').None?
  {
    if YearFirst(t, '/').Some? {
      assert IsDigit(t[..4][2]) && t[..4][2] == t[2];
    }
  }

  lemma MonthInYear(k: int)
    ensures 12 * (k / 12) + (k % 12 + 1) - 1 == k
  {}

  lemma FourDigits(year: nat)
    ensures |ZeroPad(year, 4)| == 4 <==> year <= 9999
  {
    if year <= 9999 {
      PadWidth4(year);
    } else {
      LongNumber(year, 4);
    }
  }

  lemma {:induction false} LongNumber(n: nat, k: nat)
    requires n >= Pow10(k)
    ensures |NatText(n)| > k
    decreases k
  {
    if k > 0 {
      LongNumber(n / 10, k - 1);
    }
  }

  lemma FieldsOfDate(day: int)
    ensures |ZeroPad(MonthOf(day) % 12 + 1, 2)| == 2
            && DigitsValue(ZeroPad(MonthOf(day) % 12 + 1, 2)) == MonthOf(day) % 12 + 1
    ensures |ZeroPad(DayOfMonth(day), 2)| == 2 && DigitsValue(ZeroPad(DayOfMonth(day), 2)) == DayOfMonth(day)
  {
    hide MonthOf, DayOfMonth;
    PadWidth2(MonthOf(day) % 12 + 1);
    ZeroPadValue(MonthOf(day) % 12 + 1, 2);
    PadWidth2(DayOfMonth(day));
    ZeroPadValue(DayOfMonth(day), 2);
  }

  /** A day is given by its month and day of the month. */
  lemma MonthAndDay(day: int)
    ensures DateDay(MonthOf(day), DayOfMonth(day)) == day
    ensures 1 <= DayOfMonth(day) <= DaysInMonth(MonthOf(day) / 12, MonthOf(day) % 12)
  {}

  lemma DayOfParts(day: int)
    requires 0 <= YearOf(day) <= 9999
    ensures Day(ZeroPad(YearOf(day), 4), ZeroPad(MonthOf(day) % 12 + 1, 2), ZeroPad(DayOfMonth(day), 2)) == Some(day)
  {
    hide MonthOf, DayOfMonth, DigitsValue, ZeroPad, DateDay, DaysInMonth;
    FourDigits(YearOf(day));
    ZeroPadValue(YearOf(day), 4);
    FieldsOfDate(day);
    MonthInYear(MonthOf(day));
    MonthAndDay(day);
  }

  lemma DashedParts(a: string, b: string, c: string)
    requires |a| == 4 && |b| == 2 && |c| == 2 && AllDigits(a) && AllDigits(c)
    ensures var s := a + ['-'] + b + ['-'] + c;
            && |s| == 10 && s[4] == '-' && s[7] == '-' && s[..4] == a && s[5..7] == b && s[8..] == c && Trimmed(s)
  {
    var s := a + ['-'] + b + ['-'] + c;
    assert s[0] == a[0] && s[9] == c[1] && IsDigit(a[0]) && IsDigit(c[1]);
  }

  lemma DateTextShape(day: int)
    requires 0 <= YearOf(day) <= 9999
    ensures var s := DateText(day);
            && |s| == 10 && s[4] == '-' && s[7] == '-'
            && s[..4] == ZeroPad(YearOf(day), 4) && s[5..7] == ZeroPad(MonthOf(day) % 12 + 1, 2)
              && s[8..] == ZeroPad(DayOfMonth(day), 2)
            && Trimmed(s)
  {
    hide MonthOf, DayOfMonth, ZeroPad, DigitsValue, Trimmed;
    FourDigits(YearOf(day));
    FieldsOfDate(day);
    DashedParts(ZeroPad(YearOf(day), 4), ZeroPad(MonthOf(day) % 12 + 1, 2), ZeroPad(DayOfMonth(day), 2));
  }

  /** A date in the years 0 to 9999 reads back as the same day. */
  lemma DateReadsBack(day: int)
    requires 0 <= YearOf(day) <= 9999
    ensures ParseDate(DateText(day)) == Some(day)
  {
    hide DateText, Day, MonthOf, DayOfMonth, ZeroPad;
    DateTextShape(day);
    TrimTrimmed(DateText(day));
    DayOfParts(day);
  }

  lemma LongDateUnread(day: int)
    requires !(0 <= YearOf(day) <= 9999)
    ensures ParseDate(DateText(day)) == None
  {
    var year := YearText(YearOf(day));
    var s := DateText(day);
    if YearOf(day) > 9999 { FourDigits(YearOf(day)); }
    FieldsOfDate(day);
    hide MonthOf, DayOfMonth, ZeroPad, Day;
    assert |year| > 4 && |s| > 10;
    assert s[0] == year[0] && !IsSpace(year[0]);
    assert s[|s| - 1] == ZeroPad(DayOfMonth(day), 2)[1] && IsDigit(s[|s| - 1]);
    TrimTrimmed(s);
  }

  /** Exactly the dates in the years 0 to 9999 survive the trip through text. */
  lemma DateReadsBackIff(day: int)
    ensures ParseDate(DateText(day)) == Some(day) <==> 0 <= YearOf(day) <= 9999
  {
    hide *;
    if 0 <= YearOf(day) <= 9999 { DateReadsBack(day); } else { LongDateUnread(day); }
  }

  // ---- types and keys ----

  /** normalizeType */
  function NormalizeType(fold: Folding, s: string): (r: Option<string>)
    ensures r.Some? ==> r.value == EXPENSE || r.value == INCOME
  {
    var word := Lower(fold, Trim(s));
    if word == EXPENSE || word == "витрата" || word == "витрати" || word == "видаток"
      || word == "видатки" then Some(EXPENSE)
    else if word == INCOME || word == "дохід" || word == "доход" || word == "прибуток" then Some(INCOME)
    else None
  }

  lemma LowerLatin(fold: Folding, s: string)
    requires KeepsLatin(fold) && forall i :: 0 <= i < |s| ==> 'a' <= s[i] <= 'z'
    ensures Lower(fold, s) == s
  {}

  lemma KindIsLatin(kind: string)
    requires IsKind(kind)
    ensures forall i :: 0 <= i < |kind| ==> 'a' <= kind[i] <= 'z'
    ensures '|' !in kind
  {}

  lemma KindReadsBack(fold: Folding, kind: string)
    requires KeepsLatin(fold) && IsKind(kind)
    ensures NormalizeType(fold, kind) == Some(kind) && Lower(fold, kind) == kind
  {
    LowerLatin(fold, kind);
    TrimTrimmed(kind);
  }

  /** cacheKey */
  function CacheKey(fold: Folding, kind: string, name: string): string {
    Lower(fold, kind) + ['|'] + Lower(fold, Trim(name))
  }

  /** A category's key names its kind and its trimmed, lower-cased name, and nothing else. */
  lemma KeyIdentifies(fold: Folding, kind: string, name: string, kind': string, name': string)
    requires KeepsLatin(fold) && IsKind(kind) && IsKind(kind')
    ensures CacheKey(fold, kind, name) == CacheKey(fold, kind', name') <==>
            kind == kind' && Lower(fold, Trim(name)) == Lower(fold, Trim(name'))
  {
    hide Lower, Trim, IsKind;
    KindIsLatin(kind);
    KindIsLatin(kind');
    LowerLatin(fold, kind);
    LowerLatin(fold, kind');
    KeyParts(kind, Lower(fold, Trim(name)), kind', Lower(fold, Trim(name')));
  }

  lemma KeyParts(k: string, a: string, k': string, a': string)
    requires '|' !in k && '|' !in k'
    ensures k + ['|'] + a == k' + ['|'] + a' <==> k == k' && a == a'
  {
    FirstIndex(k, '|', a);
    FirstIndex(k', '|', a');
    var s, s' := k + ['|'] + a, k' + ['|'] + a';
    assert s[..|k|] == k && s[|k| + 1..] == a;
    assert s'[..|k'|] == k' && s'[|k'| + 1..] == a';
  }

  lemma KeyIgnoresTrim(fold: Folding, kind: string, name: string)
    ensures CacheKey(fold, kind, Trim(name)) == CacheKey(fold, kind, name)
  {
    TrimIdempotent(name);
  }

  // ---- rows ----

  function Field(row: seq<string>, i: nat): string { if i < |row| then row[i] else "" }

  function LooksLikeHeader(fold: Folding, row: seq<string>): bool {
    var first := Lower(fold, Trim(Field(row, 0)));
    first == "date" || first == "дата"
  }

  function Join(row: seq<string>): string { if row == [] then "" else row[0] + Join(row[1..]) }

  predicate Blank(row: seq<string>) { Trim(Join(row)) == "" }

  lemma NotBlank(row: seq<string>)
    requires row != [] && row[0] != "" && !IsSpace(row[0][0])
    ensures !Blank(row)
  {
    var s := Join(row);
    assert s[0] == row[0][0];
    assert TrimLeft(s) == s;
    if Trim(s) == "" { AllSpace(s); }
  }

  lemma {:induction false} AllSpace(s: string)
    requires TrimRight(s) == ""
    ensures forall i :: 0 <= i < |s| ==> IsSpace(s[i])
  {
    if s != "" { AllSpace(s[..|s| - 1]); }
  }
}
