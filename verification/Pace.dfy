/** advisor.BudgetPace: this month's spending per category against the average of the last three months. */
module Pace {
  import opened Orders
  import opened Sequences
  import opened Calendar
  import opened Money
  import opened Kinds

  datatype CategoryPace = CategoryPace(category: Uuid, name: string, typical: real, spent: real, ratio: real)

  predicate Eligible(tx: Tx) { tx.kind == EXPENSE && !tx.internal && tx.amount.Some? }

  function HistoryIn(c: Uuid, worth: Tx -> real, start: int): Tx -> real {
    (tx: Tx) => if Eligible(tx) && tx.category == c && tx.date < start then worth(tx) else 0.0
  }

  function MonthIn(c: Uuid, worth: Tx -> real, start: int): Tx -> real {
    (tx: Tx) => if Eligible(tx) && tx.category == c && tx.date >= start then worth(tx) else 0.0
  }

  /** What was spent in a category before, and since, the start of this month. */
  function History(c: Uuid, txs: seq<Tx>, worth: Tx -> real, start: int): real { Sum(HistoryIn(c, worth, start), txs) }

  function ThisMonth(c: Uuid, txs: seq<Tx>, worth: Tx -> real, start: int): real { Sum(MonthIn(c, worth, start), txs) }

  /** The categories with an expense before this month. */
  function HistoryCategories(txs: seq<Tx>, start: int): set<Uuid> {
    set tx | tx in txs && Eligible(tx) && tx.date < start :: tx.category
  }

  /** One line of the report. */
  function PaceOf(c: Uuid, name: string, history: real, spent: real, progress: real): CategoryPace
    requires history != 0.0 && progress != 0.0
  {
    CategoryPace(c, name, history / 3.0, spent, spent / (history / 3.0) / progress)
  }

  function NameOf(names: map<Uuid, string>, c: Uuid): string { if c in names then names[c] else "" }

  /** Exactly the categories with a non-zero history are reported, once each, with these figures. */
  ghost predicate Lists(out: seq<CategoryPace>, txs: seq<Tx>, worth: Tx -> real, start: int, progress: real,
                        names: map<Uuid, string>)
    requires progress != 0.0
  {
    && (forall p :: p in out ==>
          && p.category in HistoryCategories(txs, start) && History(p.category, txs, worth, start) != 0.0
          && p == PaceOf(p.category, NameOf(names, p.category), History(p.category, txs, worth, start),
                         ThisMonth(p.category, txs, worth, start), progress))
    && (forall c: Uuid :: c in HistoryCategories(txs, start) && History(c, txs, worth, start) != 0.0 ==>
          exists p :: p in out && p.category == c)
    && forall p :: multiset(out)[p] <= 1
  }

  // ---- the month so far ----

  function StartOfMonth(now: int, zone: int): int { Midnight(FirstOfMonth(MonthOf(LocalDay(now, zone))), zone) }

  /** The elapsed share of the month, its length taken from day 0 of the next month as time.Date normalises it. */
  function MonthProgress(now: int, zone: int): (p: real)
    ensures 0.0 < p <= 1.0
  {
    var today := LocalDay(now, zone);
    ElapsedDays(today);
    Share(DayOfMonth(today), DayOfMonth(DateDay(MonthOf(today) + 1, 0)))
  }

  function Share(day: int, days: int): (p: real)
    requires 1 <= day <= days
    ensures 0.0 < p <= 1.0
  {
    day as real / days as real
  }

  lemma ElapsedDays(today: int)
    ensures 1 <= DayOfMonth(today) <= DayOfMonth(DateDay(MonthOf(today) + 1, 0))
  {
    LastDay(MonthOf(today));
  }

  /** Day 0 of the next month is the last day of this one. */
  lemma LastDay(k: int)
    ensures DayOfMonth(DateDay(k + 1, 0)) == MonthLength(k)
  {
    NextMonth(k);
    MonthUnique(DateDay(k + 1, 0), k);
  }

  /** The first of the month starts at or before now, and the first of the next one after it. */
  lemma NowInMonth(now: int, zone: int)
    ensures StartOfMonth(now, zone) <= now < Midnight(FirstOfMonth(MonthOf(LocalDay(now, zone)) + 1), zone)
  {
    InstantInDay(now, zone);
    NextMonth(MonthOf(LocalDay(now, zone)));
  }

  // ---- the loops ----

  ghost predicate Totals(history: map<Uuid, real>, month: map<Uuid, real>, txs: seq<Tx>, worth: Tx -> real,
                         start: int) {
    && history.Keys == HistoryCategories(txs, start)
    && (forall c: Uuid :: At(history, c) == History(c, txs, worth, start))
    && (forall c: Uuid :: At(month, c) == ThisMonth(c, txs, worth, start))
  }

  function Added(m: map<Uuid, real>, c: Uuid, x: real): map<Uuid, real> { m[c := At(m, c) + x] }

  lemma HistoryStep(history: map<Uuid, real>, txs: seq<Tx>, i: nat, worth: Tx -> real, start: int)
    requires i < |txs| && history.Keys == HistoryCategories(txs[..i], start)
    requires forall c: Uuid :: At(history, c) == History(c, txs[..i], worth, start)
    ensures var after := if Eligible(txs[i]) && txs[i].date < start then Added(history, txs[i].category, worth(txs[i]))
            else history;
            && after.Keys == HistoryCategories(txs[..i + 1], start)
            && forall c: Uuid :: At(after, c) == History(c, txs[..i + 1], worth, start)
  {
    forall c: Uuid
      ensures History(c, txs[..i + 1], worth, start) ==
              History(c, txs[..i], worth, start) + HistoryIn(c, worth, start)(txs[i])
    {
      SumTake(HistoryIn(c, worth, start), txs, i);
    }
    assert txs[..i + 1] == txs[..i] + [txs[i]];
    hide Sum, History;
  }

  lemma MonthStep(month: map<Uuid, real>, txs: seq<Tx>, i: nat, worth: Tx -> real, start: int)
    requires i < |txs| && forall c: Uuid :: At(month, c) == ThisMonth(c, txs[..i], worth, start)
    ensures var after := if Eligible(txs[i]) && txs[i].date >= start then Added(month, txs[i].category, worth(txs[i]))
            else month;
            forall c: Uuid :: At(after, c) == ThisMonth(c, txs[..i + 1], worth, start)
  {
    forall c: Uuid
      ensures ThisMonth(c, txs[..i + 1], worth, start) ==
              ThisMonth(c, txs[..i], worth, start) + MonthIn(c, worth, start)(txs[i])
    {
      SumTake(MonthIn(c, worth, start), txs, i);
    }
    hide Sum, ThisMonth;
  }

  lemma NoTotals(worth: Tx -> real, start: int)
    ensures Totals(map[], map[], [], worth, start)
  {}

  method Accumulate(txs: seq<Tx>, base: string, rates: Rates, start: int) returns (history: map<Uuid, real>,
        month: map<Uuid, real>)
    ensures Totals(history, month, txs, InBase(base, rates), start)
  {
    hide Convert, History, ThisMonth, HistoryCategories;
    ghost var worth := InBase(base, rates);
    history, month := map[], map[];
    NoTotals(worth, start);
    assert txs[..0] == [];
    for i := 0 to |txs|
      invariant Totals(history, month, txs[..i], worth, start)
    {
      var tx := txs[i];
      HistoryStep(history, txs, i, worth, start);
      MonthStep(month, txs, i, worth, start);
      if tx.kind != EXPENSE || tx.internal || tx.amount.None? { continue; }
      var converted := Convert(tx.amount.value, tx.currency, base, rates);
      if tx.date < start { history := Added(history, tx.category, converted); }
      else { month := Added(month, tx.category, converted); }
    }
    assert txs[..|txs|] == txs;
  }

  /** The lines written for the categories already visited. */
  ghost predicate Written(lines: seq<CategoryPace>, history: map<Uuid, real>, month: map<Uuid, real>, left: set<Uuid>,
                          progress: real, names: map<Uuid, string>)
    requires progress != 0.0
  {
    && (forall p :: p in lines ==>
          && p.category in history && p.category !in left && history[p.category] != 0.0
          && p == PaceOf(p.category, NameOf(names, p.category), history[p.category], At(month, p.category), progress))
    && (forall c :: c in history && c !in left && history[c] != 0.0 ==> exists p :: p in lines && p.category == c)
    && forall p :: multiset(lines)[p] <= 1
  }

  lemma PaceCategory(c: Uuid, name: string, history: real, spent: real, progress: real)
    requires history != 0.0 && progress != 0.0
    ensures PaceOf(c, name, history, spent, progress).category == c
  {}

  lemma WrittenStep(lines: seq<CategoryPace>, history: map<Uuid, real>, month: map<Uuid, real>, left: set<Uuid>,
                    progress: real,
                    names: map<Uuid, string>, c: Uuid)
    requires progress != 0.0 && c in left && c in history && Written(lines, history, month, left, progress, names)
    ensures Written(if history[c] != 0.0 then lines + [PaceOf(c, NameOf(names, c), history[c], At(month, c), progress)]
                    else lines,
                    history, month, left - {c}, progress, names)
  {
    hide PaceOf, NameOf, At;
    if history[c] != 0.0 {
      var line := PaceOf(c, NameOf(names, c), history[c], At(month, c), progress);
      PaceCategory(c, NameOf(names, c), history[c], At(month, c), progress);
      assert line !in lines;
      AppendOnce(lines, line);
    }
  }

  lemma AllWritten(lines: seq<CategoryPace>, out: seq<CategoryPace>, history: map<Uuid, real>, month: map<Uuid, real>,
                   progress: real,
                   names: map<Uuid, string>, txs: seq<Tx>, worth: Tx -> real, start: int)
    requires progress != 0.0 && Written(lines, history, month, {}, progress, names)
             && Totals(history, month, txs, worth, start)
    requires multiset(out) == multiset(lines)
    ensures Lists(out, txs, worth, start, progress, names)
  {
    hide History, ThisMonth, HistoryCategories, PaceOf;
    SameMembers(lines, out);
  }

  method BudgetPace(txs: seq<Tx>, base: string, listed: seq<(string, real)>, names: map<Uuid, string>, now: int,
                    zone: int)
    returns (out: seq<CategoryPace>)
    ensures Lists(out, txs, InBase(base, RateMap(listed)), StartOfMonth(now, zone), MonthProgress(now, zone), names)
    ensures Descending(out, (p: CategoryPace) => p.ratio)
  {
    hide Written, Lists, Totals, MonthProgress, StartOfMonth, PaceOf;
    var rates := BuildRates(listed);
    var start := StartOfMonth(now, zone);
    var progress := MonthProgress(now, zone);
    var history, month := Accumulate(txs, base, rates, start);
    var lines: seq<CategoryPace> := [];
    var left := history.Keys;
    NothingWritten(history, month, progress, names);
    while left != {}
      invariant left <= history.Keys && Written(lines, history, month, left, progress, names)
      decreases left
    {
      var c :| c in left;
      WrittenStep(lines, history, month, left, progress, names, c);
      left := left - {c};
      if history[c] != 0.0 { lines := lines + [PaceOf(c, NameOf(names, c), history[c], At(month, c), progress)]; }
    }
    out := SortDescending(lines, (p: CategoryPace) => p.ratio);
    AllWritten(lines, out, history, month, progress, names, txs, InBase(base, rates), start);
  }

  lemma NothingWritten(history: map<Uuid, real>, month: map<Uuid, real>, progress: real, names: map<Uuid, string>)
    requires progress != 0.0
    ensures Written([], history, month, history.Keys, progress, names)
  {}

  // ---- independence from the base currency ----

  /** q is p with the money figures multiplied by k. */
  predicate SamePace(k: real, p: CategoryPace, q: CategoryPace) {
    q.category == p.category && q.name == p.name && q.ratio == p.ratio && q.typical == k * p.typical
      && q.spent == k * p.spent
  }

  lemma PaceRescales(k: real, c: Uuid, name: string, history: real, spent: real, history': real, spent': real,
                     progress: real)
    requires k > 0.0 && history != 0.0 && progress != 0.0 && history' == k * history && spent' == k * spent
    ensures history' != 0.0
    ensures SamePace(k, PaceOf(c, name, history, spent, progress), PaceOf(c, name, history', spent', progress))
  {
    var third, third' := history / 3.0, history' / 3.0;
    assert third' == k * third;
    RatioScale(k, spent, third);
  }

  lemma TotalsRescale(k: real, c: Uuid, txs: seq<Tx>, w: Tx -> real, v: Tx -> real, start: int)
    requires Rescaled(k, txs, w, v)
    ensures History(c, txs, v, start) == k * History(c, txs, w, start)
    ensures ThisMonth(c, txs, v, start) == k * ThisMonth(c, txs, w, start)
  {
    HistoryRescales(k, c, txs, w, v, start);
    MonthRescales(k, c, txs, w, v, start);
    hide *;
  }

  lemma HistoryRescales(k: real, c: Uuid, txs: seq<Tx>, w: Tx -> real, v: Tx -> real, start: int)
    requires Rescaled(k, txs, w, v)
    ensures History(c, txs, v, start) == k * History(c, txs, w, start)
  {
    SumScale(HistoryIn(c, w, start), HistoryIn(c, v, start), k, txs);
  }

  lemma MonthRescales(k: real, c: Uuid, txs: seq<Tx>, w: Tx -> real, v: Tx -> real, start: int)
    requires Rescaled(k, txs, w, v)
    ensures ThisMonth(c, txs, v, start) == k * ThisMonth(c, txs, w, start)
  {
    SumScale(MonthIn(c, w, start), MonthIn(c, v, start), k, txs);
  }

  lemma LineRescales(k: real, out: seq<CategoryPace>, out': seq<CategoryPace>, p: CategoryPace, txs: seq<Tx>,
                     w: Tx -> real, v: Tx -> real,
                     start: int, progress: real, names: map<Uuid, string>) returns (q: CategoryPace)
    requires k > 0.0 && progress != 0.0 && Rescaled(k, txs, w, v)
    requires Lists(out, txs, w, start, progress, names) && Lists(out', txs, v, start, progress, names)
    requires p in out
    ensures q in out' && SamePace(k, p, q)
  {
    var c := p.category;
    TotalsRescale(k, c, txs, w, v, start);
    PaceRescales(k, c, NameOf(names, c), History(c, txs, w, start), ThisMonth(c, txs, w, start),
                 History(c, txs, v, start), ThisMonth(c, txs, v, start), progress);
    q :| q in out' && q.category == c;
    hide Rescaled, History, ThisMonth, PaceOf, HistoryCategories, SamePace;
    assert p == PaceOf(c, NameOf(names, c), History(c, txs, w, start), ThisMonth(c, txs, w, start), progress);
    assert q == PaceOf(c, NameOf(names, c), History(c, txs, v, start), ThisMonth(c, txs, v, start), progress);
  }

  /**
   With every currency and both bases known, both reports list the same categories, each with the same
   ratio, and the money figures differ by one positive factor.
   */
  lemma BaseIndependent(out: seq<CategoryPace>, out': seq<CategoryPace>, txs: seq<Tx>, base: string, base': string,
                        rates: Rates,
                        start: int, progress: real, names: map<Uuid, string>) returns (k: real)
    requires AllKnown(rates, txs) && Known(rates, base) && Known(rates, base') && progress != 0.0
    requires Lists(out, txs, InBase(base, rates), start, progress, names)
    requires Lists(out', txs, InBase(base', rates), start, progress, names)
    ensures k == Factor(rates, base, base') && k > 0.0
    ensures forall p :: p in out ==> exists q :: q in out' && SamePace(k, p, q)
    ensures forall q :: q in out' ==> exists p :: p in out && SamePace(k, p, q)
  {
    k := KnownRatesRescale(txs, base, base', rates);
    var w, v := InBase(base, rates), InBase(base', rates);
    forall p | p in out ensures exists q :: q in out' && SamePace(k, p, q) {
      var q := LineRescales(k, out, out', p, txs, w, v, start, progress, names);
    }
    forall q | q in out' ensures exists p :: p in out && SamePace(k, p, q) {
      TotalsRescale(k, q.category, txs, w, v, start);
      NonZeroBoth(k, History(q.category, txs, w, start), History(q.category, txs, v, start));
      var p :| p in out && p.category == q.category;
      var r := LineRescales(k, out, out', p, txs, w, v, start, progress, names);
    }
  }

  lemma NonZeroBoth(k: real, a: real, b: real)
    requires k > 0.0 && b == k * a && b != 0.0
    ensures a != 0.0
  {}
}
