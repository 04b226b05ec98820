/**
 The proleptic Gregorian calendar as Go's time package computes it in a zone with a fixed offset.
 Days are numbered from 0000-01-01; months are numbered from January of year 0, so that time.Date's
 normalisation of an overflowing month or day is plain addition. Instants are nanoseconds since 1970.
 */
module Calendar {
  import opened Time

  const EPOCH_DAY: int := 719_528

  predicate IsLeap(year: int) { year % 4 == 0 && (year % 100 != 0 || year % 400 == 0) }

  /** The number of days from 0000-01-01 to the first of January of a year. */
  function DaysBeforeYear(year: int): int { 365 * year + (year + 3) / 4 - (year + 99) / 100 + (year + 399) / 400 }

  /** month runs from 0 (January) to 11. */
  function DaysInMonth(year: int, month: nat): (n: nat)
    requires month < 12
    ensures 28 <= n <= 31
  {
    if month == 1 then (if IsLeap(year) then 29 else 28)
    else if month == 3 || month == 5 || month == 8 || month == 10 then 30 else 31
  }

  function DaysBeforeMonth(year: int, month: nat): nat
    requires month < 12
  {
    if month == 0 then 0 else DaysBeforeMonth(year, month - 1) + DaysInMonth(year, month - 1)
  }

  /** The day number of the first of a month. */
  function FirstOfMonth(k: int): int { DaysBeforeYear(k / 12) + DaysBeforeMonth(k / 12, k % 12) }

  function MonthLength(k: int): (n: nat)
    ensures 28 <= n <= 31
  {
    DaysInMonth(k / 12, k % 12)
  }

  lemma Quotient4(n: int)
    ensures (n + 4) / 4 == (n + 3) / 4 + (if n % 4 == 0 then 1 else 0)
  {}

  lemma Quotient100(n: int)
    ensures (n + 100) / 100 == (n + 99) / 100 + (if n % 100 == 0 then 1 else 0)
  {}

  lemma Quotient400(n: int)
    ensures (n + 400) / 400 == (n + 399) / 400 + (if n % 400 == 0 then 1 else 0)
  {}

  lemma YearLength(year: int)
    ensures DaysBeforeYear(year + 1) == DaysBeforeYear(year) + (if IsLeap(year) then 366 else 365)
  {
    Quotient4(year);
    Quotient100(year);
    Quotient400(year);
    LeapYears(year);
    YearDifference(year);
  }

  lemma LeapYears(year: int)
    ensures year % 400 == 0 ==> year % 100 == 0
    ensures year % 100 == 0 ==> year % 4 == 0
  {}

  lemma YearDifference(year: int)
    ensures DaysBeforeYear(year + 1) - DaysBeforeYear(year) ==
            365 + ((year + 4) / 4 - (year + 3) / 4) - ((year + 100) / 100 - (year + 99) / 100)
            + ((year + 400) / 400 - (year + 399) / 400)
  {}

  lemma YearInMonths(year: int)
    ensures DaysBeforeMonth(year, 11) + DaysInMonth(year, 11) == if IsLeap(year) then 366 else 365
  {
    var leapDay := if IsLeap(year) then 1 else 0;
    assert DaysBeforeMonth(year, 1) == 31;
    assert DaysBeforeMonth(year, 3) == 90 + leapDay;
    assert DaysBeforeMonth(year, 5) == 151 + leapDay;
    assert DaysBeforeMonth(year, 7) == 212 + leapDay;
    assert DaysBeforeMonth(year, 9) == 273 + leapDay;
  }

  /** Months follow each other without gap or overlap, across year ends and leap years. */
  lemma NextMonth(k: int)
    ensures FirstOfMonth(k + 1) == FirstOfMonth(k) + MonthLength(k)
  {
    if k % 12 == 11 {
      assert (k + 1) / 12 == k / 12 + 1 && (k + 1) % 12 == 0;
      YearLength(k / 12);
      YearInMonths(k / 12);
    } else {
      assert (k + 1) / 12 == k / 12 && (k + 1) % 12 == k % 12 + 1;
    }
  }

  function MonthFrom(day: int, k: int): (r: int)
    requires FirstOfMonth(k) <= day
    ensures FirstOfMonth(r) <= day < FirstOfMonth(r) + MonthLength(r)
    decreases day - FirstOfMonth(k)
  {
    NextMonth(k);
    if day < FirstOfMonth(k + 1) then k else MonthFrom(day, k + 1)
  }

  /** The month a day lies in. */
  function MonthOf(day: int): (k: int)
    ensures FirstOfMonth(k) <= day < FirstOfMonth(k) + MonthLength(k)
  {
    var year := if day >= 0 then 0 else day / 365 - 10;
    assert (12 * year) / 12 == year && (12 * year) % 12 == 0;
    assert FirstOfMonth(12 * year) <= day;
    MonthFrom(day, 12 * year)
  }

  function DayOfMonth(day: int): (d: int)
    ensures 1 <= d <= MonthLength(MonthOf(day)) <= 31
  {
    day - FirstOfMonth(MonthOf(day)) + 1
  }

  lemma {:induction false} MonthsIncrease(j: int, k: int)
    requires j < k
    ensures FirstOfMonth(j) + MonthLength(j) <= FirstOfMonth(k)
    decreases k - j
  {
    NextMonth(k - 1);
    if j < k - 1 { MonthsIncrease(j, k - 1); }
    else { assert k - 1 == j; }
  }

  /** Every day lies in exactly one month, so month and day of month name it uniquely. */
  lemma MonthUnique(day: int, k: int)
    requires FirstOfMonth(k) <= day < FirstOfMonth(k) + MonthLength(k)
    ensures MonthOf(day) == k && DayOfMonth(day) == day - FirstOfMonth(k) + 1
  {
    var m := MonthOf(day);
    if m < k { MonthsIncrease(m, k); }
    if k < m { MonthsIncrease(k, m); }
  }

  /** time.Date(year, month, day): days and months out of range carry over. */
  function DateDay(k: int, dayOfMonth: int): int { FirstOfMonth(k) + dayOfMonth - 1 }

  /** AddDate(0, n, 0) on a day. */
  function AddMonths(day: int, n: int): int { DateDay(MonthOf(day) + n, DayOfMonth(day)) }

  /** The calendar day of an instant in a zone `zone` nanoseconds east of UTC. */
  function LocalDay(t: int, zone: int): int { (t + zone) / DAY + EPOCH_DAY }

  /** The Unix epoch is 1 January 1970. */
  lemma EpochDay(k: int)
    requires k == 12 * 1970
    ensures MonthOf(LocalDay(0, 0)) == k && DayOfMonth(LocalDay(0, 0)) == 1
  {
    assert k / 12 == 1970 && k % 12 == 0;
    assert FirstOfMonth(k) == LocalDay(0, 0);
    MonthUnique(LocalDay(0, 0), k);
  }

  /** The instant a local day starts. */
  function Midnight(day: int, zone: int): int { (day - EPOCH_DAY) * DAY - zone }

  lemma DayOfMidnight(day: int, zone: int)
    ensures LocalDay(Midnight(day, zone), zone) == day
  {
    assert Midnight(day, zone) + zone == (day - EPOCH_DAY) * DAY;
    assert ((day - EPOCH_DAY) * DAY) / DAY == day - EPOCH_DAY;
  }

  lemma InstantInDay(t: int, zone: int)
    ensures Midnight(LocalDay(t, zone), zone) <= t < Midnight(LocalDay(t, zone), zone) + DAY
  {
    assert (t + zone) / DAY * DAY <= t + zone < (t + zone) / DAY * DAY + DAY;
  }

  // ---- windows of days ----

  /** At most n days lie in a window of n. */
  lemma {:induction false} InWindow(days: set<int>, first: int, n: nat)
    requires forall d :: d in days ==> first <= d < first + n
    ensures |days| <= n
    decreases n
  {
    if n == 0 {
      assert forall d :: d !in days;
    } else {
      InWindow(days - {first + n - 1}, first, n - 1);
    }
  }

  // ---- the payday estimate ----

  /** The date arithmetic at the end of Runway. */
  function NextPayday(now: int, zone: int, typicalDay: int): int {
    var candidate := DateDay(MonthOf(LocalDay(now, zone)), typicalDay);
    Midnight(if Midnight(candidate, zone) > now then candidate else AddMonths(candidate, 1), zone)
  }

  /** The estimate lies after now and at most 31 days away, through month overflow, December and leap years. */
  lemma PaydayWithin31Days(now: int, zone: int, typicalDay: int)
    requires 1 <= typicalDay <= 31
    ensures now < NextPayday(now, zone, typicalDay) <= now + 31 * DAY
  {
    var today := LocalDay(now, zone);
    var k := MonthOf(today);
    InstantInDay(now, zone);
    NextMonth(k);
    var candidate := DateDay(k, typicalDay);
    if Midnight(candidate, zone) <= now {
      assert candidate <= today;
      MonthUnique(candidate, k);
    } else {
      assert candidate <= today + 31;
      assert candidate == today + 31 ==> typicalDay == 32;
    }
  }

  /** The estimate is this month's or next month's occurrence of the typical day. */
  lemma PaydayIsTypicalDay(now: int, zone: int, typicalDay: int)
    requires 1 <= typicalDay <= 31
    ensures var k := MonthOf(LocalDay(now, zone));
            LocalDay(NextPayday(now, zone, typicalDay), zone) in {DateDay(k, typicalDay), DateDay(k + 1, typicalDay)}
  {
    hide FirstOfMonth, MonthLength;
    var k := MonthOf(LocalDay(now, zone));
    var candidate := DateDay(k, typicalDay);
    InstantInDay(now, zone);
    DayOfMidnight(candidate, zone);
    DayOfMidnight(AddMonths(candidate, 1), zone);
    if Midnight(candidate, zone) <= now {
      assert candidate <= LocalDay(now, zone);
      MonthUnique(candidate, k);
    }
  }
}
