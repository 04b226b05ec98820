/** advisor.FinancialScore. */
module Score {
  import opened Orders
  import opened Sequences
  import opened Calendar
  import opened Money
  import opened Kinds

  datatype Breakdown = Breakdown(
    total: int, savingsRate: real, savingsScore: int, topCategoryShare: real, balanceScore: int,
    activeDays: int, consistencyScore: int)

  /** math.Round for non-negative numbers. */
  function Round(v: real): int { (v + 0.5).Floor }

  function ClampScore(v: real): (s: int)
    ensures 0 <= s <= 100
  {
    if v < 0.0 then 0 else if v > 100.0 then 100 else Round(v)
  }

  // Throughout, worth(tx) is what a transaction is worth in the base currency.

  function IncomeOf(worth: Tx -> real): Tx -> real {
    (tx: Tx) => if !tx.internal && tx.kind == INCOME then worth(tx) else 0.0
  }

  function ExpenseOf(worth: Tx -> real): Tx -> real {
    (tx: Tx) => if !tx.internal && tx.kind != INCOME then worth(tx) else 0.0
  }

  function ExpenseIn(c: Uuid, worth: Tx -> real): Tx -> real {
    (tx: Tx) => if !tx.internal && tx.kind != INCOME && tx.category == c then worth(tx) else 0.0
  }

  function Income(txs: seq<Tx>, worth: Tx -> real): real { Sum(IncomeOf(worth), txs) }

  function Expense(txs: seq<Tx>, worth: Tx -> real): real { Sum(ExpenseOf(worth), txs) }

  function CategoryTotal(c: Uuid, txs: seq<Tx>, worth: Tx -> real): real { Sum(ExpenseIn(c, worth), txs) }

  function SpendingCategories(txs: seq<Tx>): set<Uuid> {
    set tx | tx in txs && !tx.internal && tx.kind != INCOME :: tx.category
  }

  function ActiveDays(txs: seq<Tx>, zone: int): set<int> {
    set tx | tx in txs && !tx.internal :: LocalDay(tx.date, zone)
  }

  /** The largest share of the expense any category takes, 0 when nothing was spent. */
  ghost predicate IsTopShare(v: real, txs: seq<Tx>, worth: Tx -> real) {
    var expense := Expense(txs, worth);
    if expense > 0.0 then
      && v >= 0.0
      && (forall c: Uuid :: CategoryTotal(c, txs, worth) / expense <= v)
      && (v == 0.0 || exists c: Uuid :: c in SpendingCategories(txs) && CategoryTotal(c, txs, worth) / expense == v)
    else v == 0.0
  }

  function SavingsRate(income: real, expense: real): real { if income > 0.0 then (income - expense) / income else 0.0 }

  /** The figures that follow from the rate, the top share and the number of active days. */
  function Figures(savingsRate: real, topShare: real, days: nat): Breakdown {
    var savingsScore := ClampScore(savingsRate / 0.20 * 100.0);
    var balanceScore := ClampScore((0.75 - topShare) / 0.5 * 100.0);
    var consistencyScore := ClampScore(days as real / 20.0 * 100.0);
    Breakdown(Round(0.4 * savingsScore as real + 0.3 * balanceScore as real + 0.3 * consistencyScore as real),
              savingsRate, savingsScore, topShare, balanceScore, days, consistencyScore)
  }

  /** b is the score of these transactions. */
  ghost predicate IsScore(b: Breakdown, txs: seq<Tx>, worth: Tx -> real, zone: int) {
    && IsTopShare(b.topCategoryShare, txs, worth)
    && b == Figures(SavingsRate(Income(txs, worth), Expense(txs, worth)), b.topCategoryShare, |ActiveDays(txs, zone)|)
  }

  /** The loop's variables after these transactions. */
  ghost predicate Tracks(income: real, expense: real, expenseByCategory: map<Uuid, real>, activeDays: set<int>,
                         txs: seq<Tx>, worth: Tx -> real, zone: int) {
    && income == Income(txs, worth) && expense == Expense(txs, worth)
    && (forall c: Uuid :: At(expenseByCategory, c) == CategoryTotal(c, txs, worth))
    && expenseByCategory.Keys == SpendingCategories(txs)
    && activeDays == ActiveDays(txs, zone)
  }

  lemma NothingTracked(worth: Tx -> real, zone: int)
    ensures Tracks(0.0, 0.0, map[], {}, [], worth, zone)
  {}

  predicate Spends(tx: Tx) { !tx.internal && tx.kind != INCOME }

  lemma CategoriesStep(expenseByCategory: map<Uuid, real>, txs: seq<Tx>, i: nat, worth: Tx -> real)
    requires i < |txs| && (forall c: Uuid :: At(expenseByCategory, c) == CategoryTotal(c, txs[..i], worth))
    ensures var tx := txs[i];
            var after := if Spends(tx) then expenseByCategory[tx.category := At(expenseByCategory, tx.category)
                                                              + worth(tx)]
                         else expenseByCategory;
            forall c: Uuid :: At(after, c) == CategoryTotal(c, txs[..i + 1], worth)
  {
    forall c: Uuid ensures CategoryTotal(c, txs[..i + 1], worth) ==
                           CategoryTotal(c, txs[..i], worth) + ExpenseIn(c, worth)(txs[i]) {
      SumTake(ExpenseIn(c, worth), txs, i);
    }
    hide Sum, CategoryTotal;
  }

  lemma SetsStep(txs: seq<Tx>, i: nat, zone: int)
    requires i < |txs|
    ensures SpendingCategories(txs[..i + 1]) == SpendingCategories(txs[..i]) + if Spends(txs[i]) then {txs[i].category}
            else {}
    ensures ActiveDays(txs[..i + 1], zone) == ActiveDays(txs[..i], zone) + if txs[i].internal then {}
            else {LocalDay(txs[i].date, zone)}
  {
    hide LocalDay;
    assert txs[..i + 1] == txs[..i] + [txs[i]];
  }

  lemma TracksStep(income: real, expense: real, expenseByCategory: map<Uuid, real>, activeDays: set<int>,
                   txs: seq<Tx>, i: nat, worth: Tx -> real, zone: int)
    requires i < |txs| && Tracks(income, expense, expenseByCategory, activeDays, txs[..i], worth, zone)
    ensures var tx := txs[i];
            Tracks(income + IncomeOf(worth)(tx), expense + ExpenseOf(worth)(tx),
                   if Spends(tx) then expenseByCategory[tx.category := At(expenseByCategory, tx.category) + worth(tx)]
                     else expenseByCategory,
                   activeDays + if tx.internal then {} else {LocalDay(tx.date, zone)}, txs[..i + 1], worth, zone)
  {
    SumTake(IncomeOf(worth), txs, i);
    SumTake(ExpenseOf(worth), txs, i);
    CategoriesStep(expenseByCategory, txs, i, worth);
    SetsStep(txs, i, zone);
    hide Sum, CategoryTotal, SpendingCategories, ActiveDays, LocalDay, IncomeOf, ExpenseOf, At;
  }

  /** The loop of FinancialScore over the transactions. */
  method Accumulate(txs: seq<Tx>, base: string, rates: Rates, zone: int)
    returns (income: real, expense: real, expenseByCategory: map<Uuid, real>, activeDays: set<int>)
    ensures Tracks(income, expense, expenseByCategory, activeDays, txs, InBase(base, rates), zone)
  {
    hide Convert, LocalDay, Tracks;
    ghost var worth := InBase(base, rates);
    income, expense, expenseByCategory, activeDays := 0.0, 0.0, map[], {};
    NothingTracked(worth, zone);
    assert txs[..0] == [];
    for i := 0 to |txs|
      invariant Tracks(income, expense, expenseByCategory, activeDays, txs[..i], worth, zone)
    {
      var tx := txs[i];
      TracksStep(income, expense, expenseByCategory, activeDays, txs, i, worth, zone);
      if tx.internal {
        assert activeDays + {} == activeDays;
        continue;
      }
      var converted := Convert(if tx.amount.Some? then tx.amount.value else 0.0, tx.currency, base, rates);
      activeDays := activeDays + {LocalDay(tx.date, zone)};
      if tx.kind == INCOME {
        income := income + converted;
      } else {
        expense := expense + converted;
        expenseByCategory := expenseByCategory[tx.category := At(expenseByCategory, tx.category) + converted];
      }
    }
    assert txs[..|txs|] == txs;
  }

  method FinancialScore(txs: seq<Tx>, base: string, listed: seq<(string, real)>, zone: int) returns (b: Breakdown)
    ensures IsScore(b, txs, InBase(base, RateMap(listed)), zone)
  {
    var rates := BuildRates(listed);
    var income, expense, expenseByCategory, activeDays := Accumulate(txs, base, rates, zone);
    var top := TopShare(expenseByCategory, expense);
    if expense > 0.0 {
      forall c: Uuid ensures CategoryTotal(c, txs, InBase(base, rates)) / expense <= top {
        assert CategoryTotal(c, txs, InBase(base, rates)) == At(expenseByCategory, c);
      }
    }
    b := Figures(SavingsRate(income, expense), top, |activeDays|);
  }

  /** The largest share, visiting the categories in any order, as Go's map iteration does. */
  method TopShare(expenseByCategory: map<Uuid, real>, expense: real) returns (top: real)
    ensures expense <= 0.0 ==> top == 0.0
    ensures expense > 0.0 ==>
              && top >= 0.0
              && (forall c :: c in expenseByCategory ==> expenseByCategory[c] / expense <= top)
              && (top == 0.0 || exists c :: c in expenseByCategory && expenseByCategory[c] / expense == top)
  {
    top := 0.0;
    if expense > 0.0 {
      var left := expenseByCategory.Keys;
      while left != {}
        invariant left <= expenseByCategory.Keys && top >= 0.0
        invariant forall c :: c in expenseByCategory && c !in left ==> expenseByCategory[c] / expense <= top
        invariant top == 0.0 || exists c :: c in expenseByCategory && expenseByCategory[c] / expense == top
        decreases left
      {
        var c :| c in left;
        left := left - {c};
        var share := expenseByCategory[c] / expense;
        if share > top { top := share; }
      }
    }
  }
}
