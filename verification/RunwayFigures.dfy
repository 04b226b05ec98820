/** What the figures of the runway forecast say. */
module RunwayFigures {
  import opened Wrappers
  import opened Orders
  import opened Sequences
  import opened Calendar
  import opened Money
  import opened Runway
  import opened Time
  import opened Kinds

  // ---- balance and burn ----

  lemma ForecastParts(f: Forecast, txs: seq<Tx>, worth: Tx -> real, now: int, zone: int)
    requires IsForecast(f, txs, worth, now, zone)
    ensures f.balance == Sum(BalanceOf(worth), txs) && 30.0 * f.dailyBurn == Sum(RecentOf(worth, now - 30 * DAY), txs)
  {
    hide Sum, Payday, PayDays, IsSalary, ZeroDate;
  }

  /** Nothing recorded: no balance and no burn. */
  lemma EmptyHistory(f: Forecast, none: seq<Tx>, worth: Tx -> real, now: int, zone: int)
    requires none == [] && IsForecast(f, none, worth, now, zone)
    ensures f.balance == 0.0 && f.dailyBurn == 0.0
  {
    ForecastParts(f, none, worth, now, zone);
    hide IsForecast;
  }

  /**
   One more transaction: income raises the balance, an expense lowers it and, within the last 30 days, raises the daily
   burn by a thirtieth; an internal transfer and an amount that does not parse change neither.
   */
  lemma OneMoreCounts(f: Forecast, g: Forecast, txs: seq<Tx>, tx: Tx, worth: Tx -> real, now: int, zone: int)
    requires IsForecast(f, txs, worth, now, zone) && IsForecast(g, txs + [tx], worth, now, zone)
    ensures tx.internal || tx.amount.None? ==> g.balance == f.balance && g.dailyBurn == f.dailyBurn
    ensures !tx.internal && tx.amount.Some? && tx.kind == INCOME ==>
              g.balance == f.balance + worth(tx) && g.dailyBurn == f.dailyBurn
    ensures !tx.internal && tx.amount.Some? && tx.kind == EXPENSE ==>
              && g.balance == f.balance - worth(tx)
              && 30.0 * (g.dailyBurn - f.dailyBurn) == if tx.date >= now - 30 * DAY then worth(tx) else 0.0
  {
    ForecastParts(f, txs, worth, now, zone);
    ForecastParts(g, txs + [tx], worth, now, zone);
    SumAfter(BalanceOf(worth), txs, tx);
    SumAfter(RecentOf(worth, now - 30 * DAY), txs, tx);
    hide IsForecast, Sum;
  }

  /** Only income that counts adds to what its category has brought in. */
  lemma OneMoreIncome(txs: seq<Tx>, tx: Tx, worth: Tx -> real, c: Uuid)
    ensures CategoryIncome(c, txs + [tx], worth) ==
            CategoryIncome(c, txs, worth)
            + if !tx.internal && tx.amount.Some? && tx.kind == INCOME && tx.category == c then worth(tx) else 0.0
  {
    SumAfter(IncomeIn(c, worth), txs, tx);
    assert IncomeIn(c, worth)(tx) ==
           if Counted(tx) && tx.kind == INCOME && tx.category == c then worth(tx) else 0.0;
  }

  // ---- when the money runs out ----

  /** The balance pays for exactly this many whole days, or is this many whole days overdrawn if negative. */
  predicate Covers(balance: real, dailyBurn: real, days: int) {
    if balance >= 0.0 then days >= 0 && days as real * dailyBurn <= balance < (days + 1) as real * dailyBurn
    else days <= 0 && (days - 1) as real * dailyBurn < balance <= days as real * dailyBurn
  }

  lemma CoversQuotient(balance: real, dailyBurn: real)
    requires dailyBurn > 0.0
    ensures Covers(balance, dailyBurn, Truncate(balance / dailyBurn))
  {
    var q := balance / dailyBurn;
    var n := Truncate(q);
    assert q * dailyBurn == balance;
    if balance >= 0.0 {
      assert q >= 0.0 by { if q < 0.0 { Signs(q, dailyBurn); } }
      Times(n as real, q, dailyBurn);
      TimesStrictly(q, (n + 1) as real, dailyBurn);
    } else {
      assert q < 0.0 by { if q >= 0.0 { Times(0.0, q, dailyBurn); } }
      Times(q, n as real, dailyBurn);
      TimesStrictly((n - 1) as real, q, dailyBurn);
    }
  }

  lemma Signs(x: real, k: real)
    requires x < 0.0 && k > 0.0
    ensures x * k < 0.0
  {}

  lemma Times(a: real, b: real, k: real)
    requires k > 0.0 && a <= b
    ensures a * k <= b * k
  {}

  lemma TimesStrictly(a: real, b: real, k: real)
    requires k > 0.0 && a < b
    ensures a * k < b * k
  {}

  lemma OneCover(balance: real, dailyBurn: real, m: int, n: int)
    requires dailyBurn > 0.0 && Covers(balance, dailyBurn, m) && Covers(balance, dailyBurn, n)
    ensures m == n
  {
    if balance >= 0.0 {
      if m < n { Times((m + 1) as real, n as real, dailyBurn); }
      if n < m { Times((n + 1) as real, m as real, dailyBurn); }
    } else {
      if m < n { Times(m as real, (n - 1) as real, dailyBurn); }
      if n < m { Times(n as real, (m - 1) as real, dailyBurn); }
    }
  }

  /** There is a zero date exactly when something is being spent: now plus the whole days the balance covers. */
  lemma ZeroDateIff(f: Forecast, txs: seq<Tx>, worth: Tx -> real, now: int, zone: int, days: int)
    requires IsForecast(f, txs, worth, now, zone)
    ensures f.zeroDate.Some? <==> f.dailyBurn > 0.0
    ensures f.dailyBurn > 0.0 ==> (f.zeroDate == Some(now + days * DAY) <==> Covers(f.balance, f.dailyBurn, days))
  {
    if f.dailyBurn > 0.0 {
      CoversQuotient(f.balance, f.dailyBurn);
      var n := Truncate(f.balance / f.dailyBurn);
      assert f.zeroDate == Some(now + n * DAY);
      if Covers(f.balance, f.dailyBurn, days) { OneCover(f.balance, f.dailyBurn, days, n); }
      hide IsForecast, Covers, Truncate;
      assert days != n ==> days * DAY != n * DAY;
    }
  }

  /**
   The verdict is negative exactly when something is being spent, a payday is expected, and the whole days the balance
   covers end before it.
   */
  lemma MakesItIff(f: Forecast, txs: seq<Tx>, worth: Tx -> real, now: int, zone: int)
    requires IsForecast(f, txs, worth, now, zone)
    ensures !f.willMakeIt <==>
            && f.dailyBurn > 0.0 && f.nextPayday.Some?
            && exists days :: Covers(f.balance, f.dailyBurn, days) && now + days * DAY < f.nextPayday.value
  {
    Verdict(f, txs, worth, now, zone);
    hide Covers;
    if f.dailyBurn > 0.0 {
      CoversQuotient(f.balance, f.dailyBurn);
      var n := Truncate(f.balance / f.dailyBurn);
      ZeroDateIff(f, txs, worth, now, zone, n);
      forall days | Covers(f.balance, f.dailyBurn, days) ensures f.zeroDate == Some(now + days * DAY) {
        ZeroDateIff(f, txs, worth, now, zone, days);
      }
    } else {
      ZeroDateIff(f, txs, worth, now, zone, 0);
    }
    hide IsForecast, Truncate;
  }

  lemma Verdict(f: Forecast, txs: seq<Tx>, worth: Tx -> real, now: int, zone: int)
    requires IsForecast(f, txs, worth, now, zone)
    ensures !f.willMakeIt <==> f.zeroDate.Some? && f.nextPayday.Some? && f.zeroDate.value < f.nextPayday.value
  {
    hide Sum, Payday, PayDays, IsSalary, ZeroDate;
  }

  // ---- the payday ----

  /** The income of a category, oldest first in the order of the list. */
  function Incomes(c: Uuid, txs: seq<Tx>): seq<Tx> {
    if txs == [] then []
    else
      var init, tx := txs[..|txs| - 1], txs[|txs| - 1];
      if !tx.internal && tx.amount.Some? && tx.kind == INCOME && tx.category == c then Incomes(c, init) + [tx]
      else Incomes(c, init)
  }

  lemma {:induction false} PayDaysOfIncomes(c: Uuid, txs: seq<Tx>, zone: int)
    ensures var days, incomes := PayDays(c, txs, zone), Incomes(c, txs);
            && |days| == |incomes|
            && forall i :: 0 <= i < |days| ==> days[i] == DayOfMonth(LocalDay(incomes[i].date, zone))
  {
    hide DayOfMonth, LocalDay;
    if txs != [] { PayDaysOfIncomes(c, txs[..|txs| - 1], zone); }
  }

  /** d is the mean of the days, rounded down. */
  predicate IsMean(d: int, days: seq<int>) { d * |days| <= Total(days) < (d + 1) * |days| }

  lemma TypicalIsMean(days: seq<int>)
    requires days != []
    ensures IsMean(TypicalDay(days), days)
  {
    var t, n := Total(days), |days|;
    assert t / n * n <= t < t / n * n + n;
  }

  /**
   A payday is expected exactly when the category that leads the income has brought in money at least twice, and lies
   on the mean of those days of the month.
   */
  lemma PaydayExpectedIff(f: Forecast, txs: seq<Tx>, worth: Tx -> real, now: int, zone: int)
    returns (salary: Uuid, typical: int)
    requires IsForecast(f, txs, worth, now, zone)
    ensures IsSalary(salary, txs, worth)
    ensures f.nextPayday.Some? <==> |Incomes(salary, txs)| >= 2
    ensures f.nextPayday.Some? ==>
              IsMean(typical, PayDays(salary, txs, zone)) && f.nextPayday.value == NextPayday(now, zone, typical)
  {
    hide IsSalary, NextPayday, TypicalDay, PayDays, Sum, ZeroDate;
    salary :| IsSalary(salary, txs, worth) && f == ForecastFor(salary, txs, worth, now, zone);
    PayDaysOfIncomes(salary, txs, zone);
    var days := PayDays(salary, txs, zone);
    typical := 0;
    if |days| >= 2 {
      TypicalIsMean(days);
      typical := TypicalDay(days);
    }
  }
}
