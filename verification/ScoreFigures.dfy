/** What the figures of the financial score say: end points, straight lines between them, and the weights. */
module ScoreFigures {
  import opened Orders
  import opened Sequences
  import opened Calendar
  import opened Money
  import opened Score
  import opened Kinds

  /** The score is 0 up to `zero`, 100 from `full` on, and within one half of the straight line between them. */
  predicate OnRamp(score: int, figure: real, zero: real, full: real)
    requires zero != full
  {
    var line := 100.0 * ((figure - zero) / (full - zero));
    && (line <= 0.0 ==> score == 0)
    && (line >= 100.0 ==> score == 100)
    && (0.0 <= line <= 100.0 ==> -0.5 <= score as real - line <= 0.5)
  }

  lemma ClampOnRamp(v: real)
    ensures v <= 0.0 ==> ClampScore(v) == 0
    ensures v >= 100.0 ==> ClampScore(v) == 100
    ensures 0.0 <= v <= 100.0 ==> -0.5 <= ClampScore(v) as real - v <= 0.5
  {}

  lemma ClampMonotone(v: real, w: real)
    requires v <= w
    ensures ClampScore(v) <= ClampScore(w)
  {}

  /** No savings score nothing, a fifth of the income scores 100. */
  lemma SavingsRamp(b: Breakdown, txs: seq<Tx>, worth: Tx -> real, zone: int)
    requires IsScore(b, txs, worth, zone)
    ensures OnRamp(b.savingsScore, b.savingsRate, 0.0, 0.2)
    ensures b.savingsRate <= 0.0 ==> b.savingsScore == 0
    ensures b.savingsRate >= 0.2 ==> b.savingsScore == 100
  {
    hide IsTopShare, SavingsRate, ActiveDays, Income, Expense, ClampScore, Round;
    var v := b.savingsRate / 0.20 * 100.0;
    ClampOnRamp(v);
    assert v == 500.0 * b.savingsRate && 100.0 * ((b.savingsRate - 0.0) / (0.2 - 0.0)) == v;
  }

  /** Three quarters of the spending in one category score nothing, a quarter scores 100. */
  lemma BalanceRamp(b: Breakdown, txs: seq<Tx>, worth: Tx -> real, zone: int)
    requires IsScore(b, txs, worth, zone)
    ensures OnRamp(b.balanceScore, b.topCategoryShare, 0.75, 0.25)
    ensures b.topCategoryShare >= 0.75 ==> b.balanceScore == 0
    ensures b.topCategoryShare <= 0.25 ==> b.balanceScore == 100
  {
    hide IsTopShare, SavingsRate, ActiveDays, Income, Expense, ClampScore, Round;
    var v := (0.75 - b.topCategoryShare) / 0.5 * 100.0;
    ClampOnRamp(v);
    assert v == 150.0 - 200.0 * b.topCategoryShare;
    assert 100.0 * ((b.topCategoryShare - 0.75) / (0.25 - 0.75)) == v;
  }

  /** No active day scores nothing, twenty score 100, and each in between exactly five. */
  lemma ConsistencyRamp(b: Breakdown, txs: seq<Tx>, worth: Tx -> real, zone: int)
    requires IsScore(b, txs, worth, zone)
    ensures b.activeDays == |ActiveDays(txs, zone)|
    ensures b.consistencyScore == if b.activeDays >= 20 then 100 else 5 * b.activeDays
  {
    hide IsTopShare, SavingsRate, ActiveDays, Income, Expense;
    assert b.activeDays as real / 20.0 * 100.0 == 5.0 * b.activeDays as real;
  }

  /** Each score grows with its figure; the balance score falls with the share. */
  lemma ScoresMonotone(b: Breakdown, c: Breakdown, txs: seq<Tx>, txs': seq<Tx>, worth: Tx -> real, worth': Tx -> real,
                       zone: int)
    requires IsScore(b, txs, worth, zone) && IsScore(c, txs', worth', zone)
    ensures b.savingsRate <= c.savingsRate ==> b.savingsScore <= c.savingsScore
    ensures b.topCategoryShare >= c.topCategoryShare ==> b.balanceScore <= c.balanceScore
    ensures b.activeDays <= c.activeDays ==> b.consistencyScore <= c.consistencyScore
  {
    hide IsTopShare, SavingsRate, ActiveDays, Income, Expense, ClampScore, Round;
    if b.savingsRate <= c.savingsRate {
      ClampMonotone(b.savingsRate / 0.20 * 100.0, c.savingsRate / 0.20 * 100.0);
    }
    if b.topCategoryShare >= c.topCategoryShare {
      ClampMonotone((0.75 - b.topCategoryShare) / 0.5 * 100.0, (0.75 - c.topCategoryShare) / 0.5 * 100.0);
    }
    if b.activeDays <= c.activeDays {
      ClampMonotone(b.activeDays as real / 20.0 * 100.0, c.activeDays as real / 20.0 * 100.0);
    }
  }

  /** The total weighs the three scores 40 : 30 : 30, rounded half up. */
  lemma TotalWeighs(b: Breakdown, txs: seq<Tx>, worth: Tx -> real, zone: int)
    requires IsScore(b, txs, worth, zone)
    ensures -5 < 10 * b.total - (4 * b.savingsScore + 3 * b.balanceScore + 3 * b.consistencyScore) <= 5
  {
    hide IsTopShare, SavingsRate, ActiveDays, Income, Expense, ClampScore;
  }

  /** The rate is the saved part of the income, and 0 without income. */
  lemma RateIsSavedShare(b: Breakdown, txs: seq<Tx>, worth: Tx -> real, zone: int)
    requires IsScore(b, txs, worth, zone)
    ensures Income(txs, worth) > 0.0 ==> b.savingsRate * Income(txs, worth) == Income(txs, worth) - Expense(txs, worth)
    ensures Income(txs, worth) <= 0.0 ==> b.savingsRate == 0.0
  {
    hide IsTopShare, ActiveDays, Income, Expense, ClampScore, Round;
  }

  /** One more transaction counts as income, or as an expense in its category, by its type. */
  lemma OneMore(txs: seq<Tx>, tx: Tx, worth: Tx -> real, c: Uuid)
    requires !tx.internal
    ensures tx.kind == INCOME ==>
              && Income(txs + [tx], worth) == Income(txs, worth) + worth(tx)
              && Expense(txs + [tx], worth) == Expense(txs, worth)
              && CategoryTotal(c, txs + [tx], worth) == CategoryTotal(c, txs, worth)
    ensures tx.kind == EXPENSE ==>
              && Income(txs + [tx], worth) == Income(txs, worth)
              && Expense(txs + [tx], worth) == Expense(txs, worth) + worth(tx)
              && CategoryTotal(c, txs + [tx], worth) ==
                 CategoryTotal(c, txs, worth) + if c == tx.category then worth(tx) else 0.0
  {
    SumAfter(IncomeOf(worth), txs, tx);
    SumAfter(ExpenseOf(worth), txs, tx);
    SumAfter(ExpenseIn(c, worth), txs, tx);
  }

  /** All the spending in one category, against income that covers it tenfold: 42 points for savings and one day. */
  lemma OneCategoryScores42(b: Breakdown, income: Tx, expense: Tx, worth: Tx -> real, zone: int)
    requires !income.internal && income.kind == INCOME && worth(income) == 1000.0
    requires !expense.internal && expense.kind == EXPENSE && worth(expense) == 100.0
    requires LocalDay(income.date, zone) == LocalDay(expense.date, zone)
    requires IsScore(b, [income, expense], worth, zone)
    ensures b.savingsRate == 0.9 && b.topCategoryShare == 1.0 && b.activeDays == 1
    ensures b.savingsScore == 100 && b.balanceScore == 0 && b.consistencyScore == 5 && b.total == 42
  {
    var none: seq<Tx>, c := [], expense.category;
    OneMore(none, income, worth, c);
    OneMore([income], expense, worth, c);
    assert none + [income] == [income] && [income] + [expense] == [income, expense];
    NothingYet(none, worth, c);
    var txs := [income, expense];
    assert ActiveDays(txs, zone) == {LocalDay(income.date, zone)} by { hide LocalDay; }
    hide LocalDay, ActiveDays, Income, Expense, CategoryTotal, Figures, SavingsRate;
    SoleCategory(b.topCategoryShare, txs, c, worth);
    RateIsSavedShare(b, txs, worth, zone);
    SavingsRamp(b, txs, worth, zone);
    BalanceRamp(b, txs, worth, zone);
    ConsistencyRamp(b, txs, worth, zone);
    TotalWeighs(b, txs, worth, zone);
  }

  lemma NothingYet(none: seq<Tx>, worth: Tx -> real, c: Uuid)
    requires none == []
    ensures Income(none, worth) == Expense(none, worth) == CategoryTotal(c, none, worth) == 0.0
  {}

  /** The one category there is takes all. */
  lemma SoleCategory(top: real, txs: seq<Tx>, c: Uuid, worth: Tx -> real)
    requires IsTopShare(top, txs, worth) && Expense(txs, worth) > 0.0
    requires CategoryTotal(c, txs, worth) == Expense(txs, worth) && SpendingCategories(txs) == {c}
    ensures top == 1.0
  {
    hide CategoryTotal, Expense, SpendingCategories;
    assert CategoryTotal(c, txs, worth) / Expense(txs, worth) == 1.0;
  }
}
