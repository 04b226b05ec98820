/** What the figures of the budget pace report say. */
module PaceFigures {
  import opened Orders
  import opened Sequences
  import opened Calendar
  import opened Money
  import opened Pace
  import opened Kinds

  /** p is a line of the report. */
  ghost predicate Reported(p: CategoryPace, txs: seq<Tx>, worth: Tx -> real, now: int, zone: int,
                           names: map<Uuid, string>) {
    exists out :: p in out && Lists(out, txs, worth, StartOfMonth(now, zone), MonthProgress(now, zone), names)
  }

  lemma LineFigures(p: CategoryPace, txs: seq<Tx>, worth: Tx -> real, now: int, zone: int, names: map<Uuid, string>)
    requires Reported(p, txs, worth, now, zone, names)
    ensures var history := History(p.category, txs, worth, StartOfMonth(now, zone));
            && history != 0.0
            && p == PaceOf(p.category, NameOf(names, p.category), history,
                           ThisMonth(p.category, txs, worth, StartOfMonth(now, zone)), MonthProgress(now, zone))
  {
    hide PaceOf, History, ThisMonth, StartOfMonth, MonthProgress, NameOf, HistoryCategories;
  }

  /**
   Three typical months are the history, and the ratio tells how the spending compares with the elapsed share of a
   typical month: 1 exactly when they are equal.
   */
  lemma RatioMeans(p: CategoryPace, txs: seq<Tx>, worth: Tx -> real, now: int, zone: int, names: map<Uuid, string>)
    requires Reported(p, txs, worth, now, zone, names)
    ensures 3.0 * p.typical == History(p.category, txs, worth, StartOfMonth(now, zone)) != 0.0
    ensures p.spent == ThisMonth(p.category, txs, worth, StartOfMonth(now, zone))
    ensures p.spent == p.ratio * (MonthProgress(now, zone) * p.typical)
    ensures p.ratio == 1.0 <==> p.spent == MonthProgress(now, zone) * p.typical
  {
    hide *;
    LineFigures(p, txs, worth, now, zone, names);
    LineNumbers(p, NameOf(names, p.category), History(p.category, txs, worth, StartOfMonth(now, zone)),
                ThisMonth(p.category, txs, worth, StartOfMonth(now, zone)), MonthProgress(now, zone));
  }

  lemma LineNumbers(p: CategoryPace, name: string, history: real, spent: real, progress: real)
    requires history != 0.0 && progress > 0.0 && p == PaceOf(p.category, name, history, spent, progress)
    ensures 3.0 * p.typical == history && p.spent == spent && p.spent == p.ratio * (progress * p.typical)
    ensures p.ratio == 1.0 <==> p.spent == progress * p.typical
  {
    Quotients(spent, history / 3.0, progress);
  }

  lemma Quotients(spent: real, typical: real, progress: real)
    requires typical != 0.0 && progress > 0.0
    ensures var ratio := spent / typical / progress;
            && spent == ratio * (progress * typical)
            && (ratio == 1.0 <==> spent == progress * typical)
  {
    var share := spent / typical;
    var ratio := share / progress;
    assert spent == share * typical;
    assert share == ratio * progress;
    assert spent == ratio * progress * typical;
    Regroup(ratio, progress, typical);
    if spent == progress * typical {
      Cancel(share, progress, typical);
    }
  }

  lemma Regroup(a: real, b: real, c: real)
    ensures a * b * c == a * (b * c)
  {}

  lemma Cancel(a: real, b: real, k: real)
    requires k != 0.0 && a * k == b * k
    ensures a == b
  {
    assert (a - b) * k == 0.0;
  }

  /** Of two lines for one typical month the one with more spending has the larger ratio. */
  lemma RatioGrows(p: CategoryPace, q: CategoryPace, txs: seq<Tx>, txs': seq<Tx>, worth: Tx -> real, now: int,
                   zone: int, names: map<Uuid, string>)
    requires Reported(p, txs, worth, now, zone, names) && Reported(q, txs', worth, now, zone, names)
    requires p.typical == q.typical > 0.0
    ensures p.spent < q.spent <==> p.ratio < q.ratio
  {
    hide *;
    RatioMeans(p, txs, worth, now, zone, names);
    RatioMeans(q, txs', worth, now, zone, names);
    Scales(MonthProgress(now, zone), p.typical);
    InOrder(p.ratio, q.ratio, MonthProgress(now, zone) * p.typical);
  }

  lemma Scales(a: real, b: real)
    requires a > 0.0 && b > 0.0
    ensures a * b > 0.0
  {}

  lemma InOrder(a: real, b: real, k: real)
    requires k > 0.0
    ensures a * k < b * k <==> a < b
  {
    assert b * k - a * k == (b - a) * k;
  }

  /** The elapsed share is the day of the month over the length of the month. */
  lemma ProgressMeans(now: int, zone: int)
    ensures var today := LocalDay(now, zone);
            MonthProgress(now, zone) * MonthLength(MonthOf(today)) as real == DayOfMonth(today) as real
  {
    hide *;
    var today := LocalDay(now, zone);
    ProgressIsShare(now, zone);
    ShareTimes(MonthProgress(now, zone), DayOfMonth(today), MonthLength(MonthOf(today)));
  }

  lemma ProgressIsShare(now: int, zone: int)
    ensures var today := LocalDay(now, zone);
            MonthProgress(now, zone) == DayOfMonth(today) as real / MonthLength(MonthOf(today)) as real
  {
    LastDay(MonthOf(LocalDay(now, zone)));
    ElapsedDays(LocalDay(now, zone));
    hide LocalDay, MonthOf, DayOfMonth, DateDay, MonthLength;
  }

  lemma ShareTimes(p: real, day: int, days: int)
    requires days > 0 && p == day as real / days as real
    ensures p * days as real == day as real
  {}

  /** This month starts at midnight of its first day. */
  lemma StartIsFirst(now: int, zone: int)
    ensures var first := LocalDay(StartOfMonth(now, zone), zone);
            && MonthOf(first) == MonthOf(LocalDay(now, zone)) && DayOfMonth(first) == 1
            && StartOfMonth(now, zone) == Midnight(first, zone)
  {
    var k := MonthOf(LocalDay(now, zone));
    DayOfMidnight(FirstOfMonth(k), zone);
    MonthUnique(FirstOfMonth(k), k);
    hide LocalDay, Midnight, FirstOfMonth;
  }

  /** One more expense counts as history before this month and as spending in it, in its own category. */
  lemma OneMoreExpense(txs: seq<Tx>, tx: Tx, worth: Tx -> real, start: int, c: Uuid)
    requires !tx.internal && tx.amount.Some? && tx.kind == EXPENSE
    ensures History(c, txs + [tx], worth, start) ==
            History(c, txs, worth, start) + if tx.category == c && tx.date < start then worth(tx) else 0.0
    ensures ThisMonth(c, txs + [tx], worth, start) ==
            ThisMonth(c, txs, worth, start) + if tx.category == c && start <= tx.date then worth(tx) else 0.0
  {
    SumAfter(HistoryIn(c, worth, start), txs, tx);
    SumAfter(MonthIn(c, worth, start), txs, tx);
  }

  /** Income, internal transfers and amounts that do not parse count as neither. */
  lemma OthersIgnored(txs: seq<Tx>, tx: Tx, worth: Tx -> real, start: int, c: Uuid)
    requires tx.internal || tx.amount.None? || tx.kind == INCOME
    ensures History(c, txs + [tx], worth, start) == History(c, txs, worth, start)
    ensures ThisMonth(c, txs + [tx], worth, start) == ThisMonth(c, txs, worth, start)
  {
    assert |INCOME| != |EXPENSE|;
    SumAfter(HistoryIn(c, worth, start), txs, tx);
    SumAfter(MonthIn(c, worth, start), txs, tx);
  }
}
