/** advisor.Runway: balance, burn rate, payday estimate and whether the money lasts until then. */
module Runway {
  import opened Wrappers
  import opened Orders
  import opened Sequences
  import opened Calendar
  import opened Money
  import opened Time
  import opened Kinds

  datatype Forecast = Forecast(balance: real, dailyBurn: real, zeroDate: Option<int>, nextPayday: Option<int>,
                               willMakeIt: bool)

  /** Transactions the loop does not skip. */
  predicate Counted(tx: Tx) { !tx.internal && tx.amount.Some? }

  function BalanceOf(worth: Tx -> real): Tx -> real {
    (tx: Tx) => if !Counted(tx) then 0.0 else if tx.kind == INCOME then worth(tx) else -worth(tx)
  }

  function RecentOf(worth: Tx -> real, since: int): Tx -> real {
    (tx: Tx) => if Counted(tx) && tx.kind != INCOME && tx.date >= since then worth(tx) else 0.0
  }

  function IncomeIn(c: Uuid, worth: Tx -> real): Tx -> real {
    (tx: Tx) => if Counted(tx) && tx.kind == INCOME && tx.category == c then worth(tx) else 0.0
  }

  function CategoryIncome(c: Uuid, txs: seq<Tx>, worth: Tx -> real): real { Sum(IncomeIn(c, worth), txs) }

  /** The days of the month on which a category's income arrived. */
  function PayDays(c: Uuid, txs: seq<Tx>, zone: int): seq<int> {
    if txs == [] then [] else PayDays(c, txs[..|txs| - 1], zone) + PayDay(c, txs[|txs| - 1], zone)
  }

  function PayDay(c: Uuid, tx: Tx, zone: int): seq<int> {
    if Counted(tx) && tx.kind == INCOME && tx.category == c then [DayOfMonth(LocalDay(tx.date, zone))] else []
  }

  lemma {:induction false} PayDaysInMonth(c: Uuid, txs: seq<Tx>, zone: int)
    ensures forall d :: d in PayDays(c, txs, zone) ==> 1 <= d <= 31
  {
    if txs != [] { PayDaysInMonth(c, txs[..|txs| - 1], zone); }
  }

  /** No category has brought in more than most. */
  ghost predicate EarnsAtMost(most: real, txs: seq<Tx>, worth: Tx -> real) {
    forall d: Uuid :: CategoryIncome(d, txs, worth) <= most
  }

  /** The category taken for the pay cheque: one with the most income, uuid.Nil when none has a positive total. */
  ghost predicate IsSalary(c: Uuid, txs: seq<Tx>, worth: Tx -> real) {
    if EarnsAtMost(0.0, txs, worth) then c == NIL else EarnsAtMost(CategoryIncome(c, txs, worth), txs, worth)
  }

  function Total(days: seq<int>): int { if days == [] then 0 else Total(days[..|days| - 1]) + days[|days| - 1] }

  function TypicalDay(days: seq<int>): int
    requires days != []
  {
    Total(days) / |days|
  }

  function Payday(days: seq<int>, now: int, zone: int): Option<int> {
    if |days| >= 2 then Some(NextPayday(now, zone, TypicalDay(days))) else None
  }

  /** int(x): towards zero. */
  function Truncate(x: real): int { if x >= 0.0 then x.Floor else -((-x).Floor) }

  /** When the balance runs out at this pace; None when nothing is being spent. */
  function ZeroDate(balance: real, dailyBurn: real, now: int): Option<int> {
    if dailyBurn > 0.0 then Some(now + Truncate(balance / dailyBurn) * DAY) else None
  }

  function Assemble(balance: real, dailyBurn: real, payday: Option<int>, now: int): Forecast {
    var zero := ZeroDate(balance, dailyBurn, now);
    Forecast(balance, dailyBurn, zero, payday, !(zero.Some? && payday.Some? && zero.value < payday.value))
  }

  function ForecastFor(salary: Uuid, txs: seq<Tx>, worth: Tx -> real, now: int, zone: int): Forecast {
    Assemble(Sum(BalanceOf(worth), txs), Sum(RecentOf(worth, now - 30 * DAY), txs) / 30.0,
             Payday(PayDays(salary, txs, zone), now, zone), now)
  }

  function DaysAt(m: map<Uuid, seq<int>>, c: Uuid): seq<int> { if c in m then m[c] else [] }

  /** The loop's variables after these transactions. */
  ghost predicate Tracks(balance: real, recentExpense: real, incomeByCategory: map<Uuid, real>, incomeDays: map<Uuid,
                         seq<int>>,
                         txs: seq<Tx>, worth: Tx -> real, since: int, zone: int) {
    && balance == Sum(BalanceOf(worth), txs)
    && recentExpense == Sum(RecentOf(worth, since), txs)
    && (forall c: Uuid :: At(incomeByCategory, c) == CategoryIncome(c, txs, worth))
    && (forall c: Uuid :: DaysAt(incomeDays, c) == PayDays(c, txs, zone))
  }

  lemma TracksStep(balance: real, recentExpense: real, incomeByCategory: map<Uuid, real>, incomeDays: map<Uuid,
                   seq<int>>,
                   txs: seq<Tx>, i: nat, worth: Tx -> real, since: int, zone: int)
    requires i < |txs| && Tracks(balance, recentExpense, incomeByCategory, incomeDays, txs[..i], worth, since, zone)
    ensures var tx := txs[i];
            Tracks(balance + BalanceOf(worth)(tx), recentExpense + RecentOf(worth, since)(tx),
                   if Counted(tx) && tx.kind == INCOME
                   then incomeByCategory[tx.category := At(incomeByCategory, tx.category) + worth(tx)]
                     else incomeByCategory,
                   if Counted(tx) && tx.kind == INCOME
                   then incomeDays[tx.category := DaysAt(incomeDays, tx.category) + PayDay(tx.category, tx, zone)]
                     else incomeDays,
                   txs[..i + 1], worth, since, zone)
  {
    SumTake(BalanceOf(worth), txs, i);
    SumTake(RecentOf(worth, since), txs, i);
    IncomeStep(incomeByCategory, txs, i, worth);
    DaysStep(incomeDays, txs, i, zone);
    hide Sum, CategoryIncome, PayDays, PayDay, BalanceOf, RecentOf, At, DaysAt;
  }

  lemma IncomeStep(incomeByCategory: map<Uuid, real>, txs: seq<Tx>, i: nat, worth: Tx -> real)
    requires i < |txs| && forall c: Uuid :: At(incomeByCategory, c) == CategoryIncome(c, txs[..i], worth)
    ensures var tx := txs[i];
            var after := if Counted(tx) && tx.kind == INCOME
                         then incomeByCategory[tx.category := At(incomeByCategory, tx.category) + worth(tx)]
                           else incomeByCategory;
            forall c: Uuid :: At(after, c) == CategoryIncome(c, txs[..i + 1], worth)
  {
    forall c: Uuid
      ensures CategoryIncome(c, txs[..i + 1], worth) == CategoryIncome(c, txs[..i], worth) + IncomeIn(c, worth)(txs[i])
    {
      SumTake(IncomeIn(c, worth), txs, i);
    }
    hide Sum, CategoryIncome;
  }

  lemma DaysStep(incomeDays: map<Uuid, seq<int>>, txs: seq<Tx>, i: nat, zone: int)
    requires i < |txs| && forall c: Uuid :: DaysAt(incomeDays, c) == PayDays(c, txs[..i], zone)
    ensures var tx := txs[i];
            var after := if Counted(tx) && tx.kind == INCOME
                         then incomeDays[tx.category := DaysAt(incomeDays, tx.category)
                                         + PayDay(tx.category, tx, zone)] else incomeDays;
            forall c: Uuid :: DaysAt(after, c) == PayDays(c, txs[..i + 1], zone)
  {
    hide DayOfMonth, LocalDay;
    assert txs[..i + 1][..i] == txs[..i];
  }

  lemma NothingTracked(worth: Tx -> real, since: int, zone: int)
    ensures Tracks(0.0, 0.0, map[], map[], [], worth, since, zone)
  {}

  /** The loop of Runway over all transactions. */
  method Accumulate(txs: seq<Tx>, base: string, rates: Rates, since: int, zone: int)
    returns (balance: real, recentExpense: real, incomeByCategory: map<Uuid, real>, incomeDays: map<Uuid, seq<int>>)
    ensures Tracks(balance, recentExpense, incomeByCategory, incomeDays, txs, InBase(base, rates), since, zone)
  {
    hide Tracks, Convert, DayOfMonth, LocalDay;
    ghost var worth := InBase(base, rates);
    balance, recentExpense, incomeByCategory, incomeDays := 0.0, 0.0, map[], map[];
    NothingTracked(worth, since, zone);
    assert txs[..0] == [];
    for i := 0 to |txs|
      invariant Tracks(balance, recentExpense, incomeByCategory, incomeDays, txs[..i], worth, since, zone)
    {
      var tx := txs[i];
      TracksStep(balance, recentExpense, incomeByCategory, incomeDays, txs, i, worth, since, zone);
      if tx.internal || tx.amount.None? { continue; }
      var converted := Convert(tx.amount.value, tx.currency, base, rates);
      if tx.kind == INCOME {
        balance := balance + converted;
        incomeByCategory := incomeByCategory[tx.category := At(incomeByCategory, tx.category) + converted];
        incomeDays := incomeDays[tx.category := DaysAt(incomeDays, tx.category)
                                 + [DayOfMonth(LocalDay(tx.date, zone))]];
      } else {
        balance := balance - converted;
        if tx.date >= since { recentExpense := recentExpense + converted; }
      }
    }
    assert txs[..|txs|] == txs;
  }

  /** A positive maximum of the map, or uuid.Nil when nothing in it is positive. */
  ghost predicate Leads(salary: Uuid, incomeByCategory: map<Uuid, real>) {
    && (salary == NIL || At(incomeByCategory, salary) > 0.0)
    && forall c: Uuid :: At(incomeByCategory, c) <= if At(incomeByCategory, salary) > 0.0
         then At(incomeByCategory, salary) else 0.0
  }

  /** The category with the most income, visiting the map in any order. */
  method PickSalary(incomeByCategory: map<Uuid, real>) returns (salary: Uuid)
    ensures Leads(salary, incomeByCategory)
  {
    salary := NIL;
    var maxIncome := 0.0;
    var left := incomeByCategory.Keys;
    while left != {}
      invariant left <= incomeByCategory.Keys && maxIncome >= 0.0
      invariant forall c :: c in incomeByCategory && c !in left ==> incomeByCategory[c] <= maxIncome
      invariant if maxIncome == 0.0 then salary == NIL
                else salary in incomeByCategory && incomeByCategory[salary] == maxIncome
      decreases left
    {
      var c :| c in left;
      left := left - {c};
      if incomeByCategory[c] > maxIncome { maxIncome, salary := incomeByCategory[c], c; }
    }
    if maxIncome > 0.0 { assert At(incomeByCategory, salary) > 0.0; }
  }

  lemma SalaryFound(salary: Uuid, incomeByCategory: map<Uuid, real>, txs: seq<Tx>, worth: Tx -> real)
    requires forall c: Uuid :: At(incomeByCategory, c) == CategoryIncome(c, txs, worth)
    requires Leads(salary, incomeByCategory)
    ensures IsSalary(salary, txs, worth)
  {
    assert At(incomeByCategory, salary) == CategoryIncome(salary, txs, worth);
    var most := if At(incomeByCategory, salary) > 0.0 then At(incomeByCategory, salary) else 0.0;
    forall d: Uuid ensures CategoryIncome(d, txs, worth) <= most { assert At(incomeByCategory, d) <= most; }
  }

  /** f is the forecast for a category with the most income. */
  ghost predicate IsForecast(f: Forecast, txs: seq<Tx>, worth: Tx -> real, now: int, zone: int) {
    exists salary: Uuid :: IsSalary(salary, txs, worth) && f == ForecastFor(salary, txs, worth, now, zone)
  }

  method ComputeRunway(txs: seq<Tx>, base: string, listed: seq<(string, real)>, now: int,
                       zone: int) returns (f: Forecast)
    ensures IsForecast(f, txs, InBase(base, RateMap(listed)), now, zone)
  {
    var rates := BuildRates(listed);
    var balance, recentExpense, incomeByCategory, incomeDays := Accumulate(txs, base, rates, now - 30 * DAY, zone);
    var salary := PickSalary(incomeByCategory);
    SalaryFound(salary, incomeByCategory, txs, InBase(base, rates));
    var dailyBurn := recentExpense / 30.0;
    var nextPayday := None;
    var days := DaysAt(incomeDays, salary);
    if |days| >= 2 {
      var sum := 0;
      for i := 0 to |days|
        invariant sum == Total(days[..i])
      {
        assert days[..i + 1][..i] == days[..i];
        sum := sum + days[i];
      }
      assert days[..|days|] == days;
      nextPayday := Some(NextPayday(now, zone, sum / |days|));
    }
    f := Assemble(balance, dailyBurn, nextPayday, now);
    assert f == ForecastFor(salary, txs, InBase(base, rates), now, zone);
  }

  // ---- bounds ----

  lemma {:induction false} TotalBetween(days: seq<int>, lo: int, hi: int)
    requires forall d :: d in days ==> lo <= d <= hi
    ensures lo * |days| <= Total(days) <= hi * |days|
  {
    if days != [] {
      var init := days[..|days| - 1];
      assert forall d :: d in init ==> d in days;
      TotalBetween(init, lo, hi);
      assert days[|days| - 1] in days;
      OneMore(lo, |init|);
      OneMore(hi, |init|);
    }
  }

  lemma OneMore(a: int, n: nat)
    ensures a * (n + 1) == a * n + a
  {}

  /** The typical day lies between the smallest and the largest day seen. */
  lemma TypicalDayBetween(days: seq<int>, lo: int, hi: int)
    requires days != [] && forall d :: d in days ==> lo <= d <= hi
    ensures lo <= TypicalDay(days) <= hi
  {
    TotalBetween(days, lo, hi);
    QuotientBetween(Total(days), |days|, lo, hi);
  }

  lemma QuotientBetween(t: int, n: nat, lo: int, hi: int)
    requires n > 0 && lo * n <= t <= hi * n
    ensures lo <= t / n <= hi
  {
    var q := t / n;
    assert q * n <= t < (q + 1) * n;
    if q < lo { ProductOrder(q + 1, lo, n); }
    if q > hi { ProductOrder(hi + 1, q, n); }
  }

  lemma ProductOrder(a: int, b: int, n: nat)
    requires a <= b
    ensures a * n <= b * n
  {
    assert (b - a) * n >= 0;
  }

  /** Whatever the history, a payday estimate lies after now and within 31 days. */
  lemma ForecastPaydaySoon(f: Forecast, txs: seq<Tx>, worth: Tx -> real, now: int, zone: int)
    requires IsForecast(f, txs, worth, now, zone)
    ensures f.nextPayday.Some? ==> now < f.nextPayday.value <= now + 31 * DAY
  {
    var salary: Uuid :| IsSalary(salary, txs, worth) && f == ForecastFor(salary, txs, worth, now, zone);
    PaydaySoon(salary, txs, now, zone);
  }

  lemma PaydaySoon(salary: Uuid, txs: seq<Tx>, now: int, zone: int)
    ensures var p := Payday(PayDays(salary, txs, zone), now, zone); p.Some? ==> now < p.value <= now + 31 * DAY
  {
    var days := PayDays(salary, txs, zone);
    if |days| >= 2 {
      PayDaysInMonth(salary, txs, zone);
      TypicalDayBetween(days, 1, 31);
      PaydayWithin31Days(now, zone, TypicalDay(days));
    }
  }

  // ---- independence from the base currency ----

  lemma SameOrder(k: real, a: real, b: real)
    requires k > 0.0
    ensures a <= b <==> k * a <= k * b
    ensures a > 0.0 <==> k * a > 0.0
  {}

  lemma CategoryIncomeRescales(k: real, c: Uuid, txs: seq<Tx>, w: Tx -> real, v: Tx -> real)
    requires Rescaled(k, txs, w, v)
    ensures CategoryIncome(c, txs, v) == k * CategoryIncome(c, txs, w)
  {
    SumScale(IncomeIn(c, w), IncomeIn(c, v), k, txs);
  }

  lemma SalaryRescales(k: real, c: Uuid, txs: seq<Tx>, w: Tx -> real, v: Tx -> real)
    requires k > 0.0 && Rescaled(k, txs, w, v)
    ensures IsSalary(c, txs, w) <==> IsSalary(c, txs, v)
  {
    forall d: Uuid
      ensures CategoryIncome(d, txs, w) > 0.0 <==> CategoryIncome(d, txs, v) > 0.0
      ensures CategoryIncome(d, txs, w) <= CategoryIncome(c, txs, w) <==>
              CategoryIncome(d, txs, v) <= CategoryIncome(c, txs, v)
    {
      CategoryIncomeRescales(k, d, txs, w, v);
      CategoryIncomeRescales(k, c, txs, w, v);
      SameOrder(k, CategoryIncome(d, txs, w), CategoryIncome(c, txs, w));
    }
    assert EarnsAtMost(0.0, txs, w) <==> EarnsAtMost(0.0, txs, v);
    assert EarnsAtMost(CategoryIncome(c, txs, w), txs, w) <==> EarnsAtMost(CategoryIncome(c, txs, v), txs, v);
  }

  lemma BalanceRescales(k: real, txs: seq<Tx>, w: Tx -> real, v: Tx -> real)
    requires Rescaled(k, txs, w, v)
    ensures Sum(BalanceOf(v), txs) == k * Sum(BalanceOf(w), txs)
  {
    SumScale(BalanceOf(w), BalanceOf(v), k, txs);
  }

  lemma RecentRescales(k: real, txs: seq<Tx>, w: Tx -> real, v: Tx -> real, since: int)
    requires Rescaled(k, txs, w, v)
    ensures Sum(RecentOf(v, since), txs) == k * Sum(RecentOf(w, since), txs)
  {
    SumScale(RecentOf(w, since), RecentOf(v, since), k, txs);
  }

  lemma ZeroDateRescales(k: real, balance: real, burn: real, balance': real, burn': real, now: int)
    requires k > 0.0 && balance' == k * balance && burn' == k * burn
    ensures ZeroDate(balance', burn', now) == ZeroDate(balance, burn, now)
  {
    SameOrder(k, 0.0, burn);
    if burn > 0.0 { RatioScale(k, balance, burn); }
  }

  lemma DivideScaled(k: real, x: real, y: real, d: real)
    requires d != 0.0 && y == k * x
    ensures y / d == k * (x / d)
  {
    assert x == x / d * d;
    assert y == k * (x / d) * d;
  }

  lemma AssembleRescales(k: real, balance: real, burn: real, balance': real, burn': real, payday: Option<int>, now: int)
    requires k > 0.0 && balance' == k * balance && burn' == k * burn
    ensures var f, f' := Assemble(balance, burn, payday, now), Assemble(balance', burn', payday, now);
            && f.balance == balance && f.dailyBurn == burn && f'.balance == balance' && f'.dailyBurn == burn'
            && f'.zeroDate == f.zeroDate && f'.nextPayday == f.nextPayday && f'.willMakeIt == f.willMakeIt
  {
    ZeroDateRescales(k, balance, burn, balance', burn', now);
  }

  lemma FiguresRescale(k: real, txs: seq<Tx>, w: Tx -> real, v: Tx -> real, since: int)
    returns (balance: real, burn: real, balance': real, burn': real)
    requires Rescaled(k, txs, w, v)
    ensures balance == Sum(BalanceOf(w), txs) && burn == Sum(RecentOf(w, since), txs) / 30.0
    ensures balance' == Sum(BalanceOf(v), txs) && burn' == Sum(RecentOf(v, since), txs) / 30.0
    ensures balance' == k * balance && burn' == k * burn
  {
    hide *;
    BalanceRescales(k, txs, w, v);
    RecentRescales(k, txs, w, v, since);
    balance, burn := Sum(BalanceOf(w), txs), Sum(RecentOf(w, since), txs) / 30.0;
    balance', burn' := Sum(BalanceOf(v), txs), Sum(RecentOf(v, since), txs) / 30.0;
    DivideScaled(k, Sum(RecentOf(w, since), txs), Sum(RecentOf(v, since), txs), 30.0);
  }

  lemma ForecastRescales(k: real, salary: Uuid, txs: seq<Tx>, w: Tx -> real, v: Tx -> real, now: int, zone: int)
    requires k > 0.0 && Rescaled(k, txs, w, v)
    ensures var f, f' := ForecastFor(salary, txs, w, now, zone), ForecastFor(salary, txs, v, now, zone);
            && f'.balance == k * f.balance && f'.dailyBurn == k * f.dailyBurn
            && f'.zeroDate == f.zeroDate && f'.nextPayday == f.nextPayday && f'.willMakeIt == f.willMakeIt
  {
    hide Assemble, Rescaled, Sum, Payday, PayDays;
    var balance, burn, balance', burn' := FiguresRescale(k, txs, w, v, now - 30 * DAY);
    AssembleRescales(k, balance, burn, balance', burn', Payday(PayDays(salary, txs, zone), now, zone), now);
  }

  /** One category leads the income. */
  ghost predicate OneSalary(txs: seq<Tx>, worth: Tx -> real) {
    forall c: Uuid, d: Uuid :: IsSalary(c, txs, worth) && IsSalary(d, txs, worth) ==> c == d
  }

  /**
   With every currency and both bases known and one category leading the income, the payday, the zero date
   and the verdict are the same in both bases, and the money figures differ by one positive factor.
   */
  lemma BaseIndependent(f: Forecast, f': Forecast, txs: seq<Tx>, base: string, base': string, rates: Rates, now: int,
                        zone: int)
    returns (k: real)
    requires AllKnown(rates, txs) && Known(rates, base) && Known(rates, base')
    requires IsForecast(f, txs, InBase(base, rates), now, zone) && IsForecast(f', txs, InBase(base', rates), now, zone)
    requires OneSalary(txs, InBase(base, rates))
    ensures k == Factor(rates, base, base') && k > 0.0
    ensures f'.nextPayday == f.nextPayday && f'.zeroDate == f.zeroDate && f'.willMakeIt == f.willMakeIt
    ensures f'.balance == k * f.balance && f'.dailyBurn == k * f.dailyBurn
  {
    hide ForecastFor, InBase, IsSalary;
    k := KnownRatesRescale(txs, base, base', rates);
    var salary: Uuid :| IsSalary(salary, txs, InBase(base, rates))
      && f == ForecastFor(salary, txs, InBase(base, rates), now, zone);
    var salary': Uuid :| IsSalary(salary', txs, InBase(base', rates))
      && f' == ForecastFor(salary', txs, InBase(base', rates), now, zone);
    SalaryRescales(k, salary', txs, InBase(base, rates), InBase(base', rates));
    ForecastRescales(k, salary, txs, InBase(base, rates), InBase(base', rates), now, zone);
  }
}
