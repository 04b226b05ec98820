/** What the financial score does not depend on, and the ranges of its figures. */
module ScoreProperties {
  import opened Orders
  import opened Sequences
  import opened Calendar
  import opened Money
  import opened Score
  import opened Time
  import opened Kinds

  /** The top share is determined by the transactions, so the order of the category map does not matter. */
  lemma TopShareUnique(v: real, w: real, txs: seq<Tx>, worth: Tx -> real)
    requires IsTopShare(v, txs, worth) && IsTopShare(w, txs, worth)
    ensures v == w
  {}

  lemma ScoreUnique(b: Breakdown, b': Breakdown, txs: seq<Tx>, worth: Tx -> real, zone: int)
    requires IsScore(b, txs, worth, zone) && IsScore(b', txs, worth, zone)
    ensures b == b'
  {
    TopShareUnique(b.topCategoryShare, b'.topCategoryShare, txs, worth);
  }

  // ---- independence from the base currency ----

  lemma IncomeRescales(k: real, txs: seq<Tx>, w: Tx -> real, v: Tx -> real)
    requires Rescaled(k, txs, w, v)
    ensures Income(txs, v) == k * Income(txs, w)
  {
    SumScale(IncomeOf(w), IncomeOf(v), k, txs);
  }

  lemma ExpenseRescales(k: real, txs: seq<Tx>, w: Tx -> real, v: Tx -> real)
    requires Rescaled(k, txs, w, v)
    ensures Expense(txs, v) == k * Expense(txs, w)
  {
    SumScale(ExpenseOf(w), ExpenseOf(v), k, txs);
  }

  lemma CategoryRescales(k: real, c: Uuid, txs: seq<Tx>, w: Tx -> real, v: Tx -> real)
    requires Rescaled(k, txs, w, v)
    ensures CategoryTotal(c, txs, v) == k * CategoryTotal(c, txs, w)
  {
    SumScale(ExpenseIn(c, w), ExpenseIn(c, v), k, txs);
  }

  lemma TopShareRescales(k: real, top: real, txs: seq<Tx>, w: Tx -> real, v: Tx -> real)
    requires k > 0.0 && Rescaled(k, txs, w, v)
    requires IsTopShare(top, txs, w)
    ensures IsTopShare(top, txs, v)
  {
    ExpenseRescales(k, txs, w, v);
    var expense := Expense(txs, w);
    SameSign(k, expense);
    if expense > 0.0 {
      forall c: Uuid ensures CategoryTotal(c, txs, v) / Expense(txs, v) == CategoryTotal(c, txs, w) / expense {
        CategoryRescales(k, c, txs, w, v);
        RatioScale(k, CategoryTotal(c, txs, w), expense);
      }
    }
  }

  lemma SameSign(k: real, x: real)
    requires k > 0.0
    ensures k * x > 0.0 <==> x > 0.0
  {}

  lemma SavingsRateRescales(k: real, income: real, expense: real, income': real, expense': real)
    requires k > 0.0 && income' == k * income && expense' == k * expense
    ensures SavingsRate(income', expense') == SavingsRate(income, expense)
  {
    SameSign(k, income);
    if income > 0.0 {
      RatioScale(k, income - expense, income);
      assert k * income - k * expense == k * (income - expense);
    }
  }

  lemma ScoreRescales(k: real, b: Breakdown, txs: seq<Tx>, w: Tx -> real, v: Tx -> real, zone: int)
    requires k > 0.0 && Rescaled(k, txs, w, v)
    requires IsScore(b, txs, w, zone)
    ensures IsScore(b, txs, v, zone)
  {
    TopShareRescales(k, b.topCategoryShare, txs, w, v);
    IncomeRescales(k, txs, w, v);
    ExpenseRescales(k, txs, w, v);
    SavingsRateRescales(k, Income(txs, w), Expense(txs, w), Income(txs, v), Expense(txs, v));
  }

  /** With every currency and both bases known, every field of the score is the same in both bases. */
  lemma BaseIndependent(b: Breakdown, b': Breakdown, txs: seq<Tx>, base: string, base': string, rates: Rates, zone: int)
    requires AllKnown(rates, txs) && Known(rates, base) && Known(rates, base')
    requires IsScore(b, txs, InBase(base, rates), zone) && IsScore(b', txs, InBase(base', rates), zone)
    ensures b == b'
  {
    var k := KnownRatesRescale(txs, base, base', rates);
    ScoreRescales(k, b, txs, InBase(base, rates), InBase(base', rates), zone);
    ScoreUnique(b, b', txs, InBase(base', rates), zone);
  }

  // ---- order and internal transfers ----

  /** Reordering the transactions does not change the score. */
  lemma OrderIndependent(b: Breakdown, txs: seq<Tx>, txs': seq<Tx>, worth: Tx -> real, zone: int)
    requires multiset(txs) == multiset(txs') && IsScore(b, txs, worth, zone)
    ensures IsScore(b, txs', worth, zone)
  {
    SumPermutation(IncomeOf(worth), txs, txs');
    SumPermutation(ExpenseOf(worth), txs, txs');
    forall c: Uuid ensures CategoryTotal(c, txs, worth) == CategoryTotal(c, txs', worth) {
      SumPermutation(ExpenseIn(c, worth), txs, txs');
    }
    SameMembers(txs, txs');
    assert SpendingCategories(txs) == SpendingCategories(txs') && ActiveDays(txs, zone) == ActiveDays(txs', zone);
  }

  /** Money moved between the user's own accounts does not change the score. */
  lemma InternalTransferIgnored(b: Breakdown, txs: seq<Tx>, tx: Tx, worth: Tx -> real, zone: int)
    requires tx.internal && IsScore(b, txs, worth, zone)
    ensures IsScore(b, txs + [tx], worth, zone)
  {
    SumAfter(IncomeOf(worth), txs, tx);
    SumAfter(ExpenseOf(worth), txs, tx);
    forall c: Uuid ensures CategoryTotal(c, txs + [tx], worth) == CategoryTotal(c, txs, worth) {
      SumAfter(ExpenseIn(c, worth), txs, tx);
    }
    assert SpendingCategories(txs + [tx]) == SpendingCategories(txs)
           && ActiveDays(txs + [tx], zone) == ActiveDays(txs, zone);
  }

  // ---- ranges ----

  /** All scores and their weighted total lie in 0..100. */
  lemma ScoresInRange(b: Breakdown, txs: seq<Tx>, worth: Tx -> real, zone: int)
    requires IsScore(b, txs, worth, zone)
    ensures 0 <= b.savingsScore <= 100 && 0 <= b.balanceScore <= 100 && 0 <= b.consistencyScore <= 100
    ensures 0 <= b.total <= 100
  {}

  /** What the category totals of any listing of the categories add up to. */
  function CategorySum(cats: seq<Uuid>, txs: seq<Tx>, worth: Tx -> real): real {
    if cats == [] then 0.0
    else CategorySum(cats[..|cats| - 1], txs, worth) + CategoryTotal(cats[|cats| - 1], txs, worth)
  }

  lemma {:induction false} CategorySumStep(cats: seq<Uuid>, txs: seq<Tx>, tx: Tx, worth: Tx -> real)
    requires Distinct(cats)
    ensures CategorySum(cats, txs + [tx], worth) ==
            CategorySum(cats, txs, worth) + if tx.category in cats then ExpenseOf(worth)(tx) else 0.0
  {
    if cats != [] {
      var init, c := cats[..|cats| - 1], cats[|cats| - 1];
      CategorySumStep(init, txs, tx, worth);
      SumAfter(ExpenseIn(c, worth), txs, tx);
      assert cats == init + [c];
    }
  }

  /** The expense is the sum of the per-category totals, over any listing of at least the spending categories. */
  lemma {:induction false} ExpenseIsCategorySum(cats: seq<Uuid>, txs: seq<Tx>, worth: Tx -> real)
    requires Distinct(cats) && forall c :: c in SpendingCategories(txs) ==> c in cats
    ensures CategorySum(cats, txs, worth) == Expense(txs, worth)
    decreases |txs|
  {
    if txs == [] {
      EmptyCategorySum(cats, worth);
    } else {
      var init, tx := txs[..|txs| - 1], txs[|txs| - 1];
      assert txs == init + [tx];
      assert forall c :: c in SpendingCategories(init) ==> c in SpendingCategories(txs);
      ExpenseIsCategorySum(cats, init, worth);
      CategorySumStep(cats, init, tx, worth);
      if !tx.internal && tx.kind != INCOME { assert tx.category in SpendingCategories(txs); }
    }
  }

  lemma {:induction false} EmptyCategorySum(cats: seq<Uuid>, worth: Tx -> real)
    ensures CategorySum(cats, [], worth) == 0.0
  {
    if cats != [] { EmptyCategorySum(cats[..|cats| - 1], worth); }
  }

  predicate NonNegative(txs: seq<Tx>, worth: Tx -> real) { forall tx :: tx in txs ==> worth(tx) >= 0.0 }

  /** Non-negative amounts and rates make every transaction's worth non-negative in any base. */
  lemma NonNegativeInBase(txs: seq<Tx>, base: string, rates: Rates)
    requires forall c :: c in rates ==> rates[c] >= 0.0
    requires forall tx :: tx in txs && tx.amount.Some? ==> tx.amount.value >= 0.0
    ensures NonNegative(txs, InBase(base, rates))
  {
    forall tx | tx in txs ensures InBase(base, rates)(tx) >= 0.0 {
      ConvertSign(if tx.amount.Some? then tx.amount.value else 0.0, tx.currency, base, rates);
    }
  }

  lemma {:induction false} SumAtMost(cats: seq<Uuid>, txs: seq<Tx>, worth: Tx -> real, most: real)
    requires forall c: Uuid :: CategoryTotal(c, txs, worth) <= most
    ensures CategorySum(cats, txs, worth) <= |cats| as real * most
  {
    if cats != [] { SumAtMost(cats[..|cats| - 1], txs, worth, most); }
  }

  lemma ExpenseInSign(c: Uuid, txs: seq<Tx>, worth: Tx -> real)
    requires NonNegative(txs, worth)
    ensures 0.0 <= CategoryTotal(c, txs, worth) <= Expense(txs, worth)
  {
    SumNonNegative(ExpenseIn(c, worth), txs);
    SumOrder(ExpenseIn(c, worth), ExpenseOf(worth), txs);
  }

  lemma {:induction false} SumOrder(w: Tx -> real, v: Tx -> real, txs: seq<Tx>)
    requires forall tx :: tx in txs ==> w(tx) <= v(tx)
    ensures Sum(w, txs) <= Sum(v, txs)
  {
    if txs != [] { SumOrder(w, v, txs[..|txs| - 1]); }
  }

  lemma TopShareAtMostOne(v: real, txs: seq<Tx>, worth: Tx -> real)
    requires NonNegative(txs, worth) && IsTopShare(v, txs, worth)
    ensures v <= 1.0
  {
    var expense := Expense(txs, worth);
    if expense > 0.0 && v != 0.0 {
      var c: Uuid :| c in SpendingCategories(txs) && CategoryTotal(c, txs, worth) / expense == v;
      ExpenseInSign(c, txs, worth);
      AtMostOne(CategoryTotal(c, txs, worth), expense);
    }
  }

  lemma AtMostOne(a: real, b: real)
    requires b > 0.0 && a <= b
    ensures a / b <= 1.0
  {}

  lemma CategoriesBelow(v: real, txs: seq<Tx>, worth: Tx -> real, most: real)
    requires IsTopShare(v, txs, worth) && Expense(txs, worth) > 0.0 && most == v * Expense(txs, worth)
    ensures forall c: Uuid :: CategoryTotal(c, txs, worth) <= most
  {
    forall c: Uuid ensures CategoryTotal(c, txs, worth) <= most {
      QuotientBound(CategoryTotal(c, txs, worth), Expense(txs, worth), v);
    }
  }

  /** With k spending categories and some expense, the top share lies between 1/k and 1. */
  lemma TopShareRange(v: real, cats: seq<Uuid>, txs: seq<Tx>, worth: Tx -> real)
    requires NonNegative(txs, worth) && Distinct(cats) && (forall c :: c in cats <==> c in SpendingCategories(txs))
    requires IsTopShare(v, txs, worth) && Expense(txs, worth) > 0.0
    ensures |cats| > 0 && 1.0 / |cats| as real <= v <= 1.0
  {
    hide IsTopShare;
    var expense := Expense(txs, worth);
    var most := v * expense;
    ExpenseIsCategorySum(cats, txs, worth);
    assert cats != [];
    CategoriesBelow(v, txs, worth, most);
    SumAtMost(cats, txs, worth, most);
    AverageBound(|cats|, v, expense, most);
    TopShareAtMostOne(v, txs, worth);
  }

  lemma QuotientBound(a: real, b: real, v: real)
    requires b > 0.0 && a / b <= v
    ensures a <= v * b
  {
    assert a == a / b * b;
  }

  lemma AverageBound(n: nat, v: real, e: real, most: real)
    requires n > 0 && e > 0.0 && most == v * e && e <= n as real * most
    ensures 1.0 / n as real <= v
  {
    var share := n as real * v;
    assert n as real * most == share * e;
    if share < 1.0 { Shrinks(share, e); }
    assert v == share / n as real;
  }

  lemma Shrinks(share: real, e: real)
    requires e > 0.0 && share < 1.0
    ensures share * e < e
  {}

  /** Transactions between start and now, 30 days apart, fall on at most 31 calendar days. */
  lemma AtMost31ActiveDays(txs: seq<Tx>, now: int, zone: int)
    requires forall tx :: tx in txs ==> now - 30 * DAY <= tx.date <= now
    ensures |ActiveDays(txs, zone)| <= 31
  {
    var first := LocalDay(now - 30 * DAY, zone);
    assert LocalDay(now, zone) == first + 30 by {
      assert (now - 30 * DAY + zone) / DAY == (now + zone) / DAY - 30;
    }
    InWindow(ActiveDays(txs, zone), first, 31);
  }
}
