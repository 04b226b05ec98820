/** The rules a group of charges must meet to be reported, in whole days and amounts. */
module SubscriptionRules {
  import opened Wrappers
  import opened Text
  import opened Sequences
  import opened Money
  import opened Subscriptions
  import opened Time
  import opened Kinds

  /** x lies within a fifth of the average. */
  predicate Near(x: real, average: real) {
    -average <= 5.0 * (x - average) <= average || average <= 5.0 * (x - average) <= -average
  }

  lemma NearIff(x: real, average: real)
    requires average != 0.0
    ensures Deviation(x, average) <= 0.20 <==> Near(x, average)
  {
    var d := (x - average) / average;
    assert d * average == x - average;
    if average > 0.0 {
      Sides(d, average);
    } else {
      Sides(d, -average);
      assert d * (-average) == -(x - average);
    }
  }

  lemma Sides(d: real, k: real)
    requires k > 0.0
    ensures 5.0 * (d * k) <= k <==> d <= 0.20
    ensures -k <= 5.0 * (d * k) <==> -0.20 <= d
  {
    assert k - 5.0 * (d * k) == 5.0 * ((0.20 - d) * k);
    assert k + 5.0 * (d * k) == 5.0 * ((0.20 + d) * k);
  }

  lemma IntervalIff(first: int, last: int, n: int)
    requires n >= 2
    ensures 20.0 <= Interval(first, last, n) <==> 20 * DAY * (n - 1) <= last - first
    ensures Interval(first, last, n) <= 40.0 <==> last - first <= 40 * DAY * (n - 1)
  {
    var gaps, span := (n - 1) as real, (last - first) as real;
    IntervalTimes(first, last, n);
    hide Interval;
    Rescale(20.0, Interval(first, last, n), gaps, DAY as real, span);
    Rescale(40.0, Interval(first, last, n), gaps, DAY as real, span);
  }

  lemma IntervalTimes(first: int, last: int, n: int)
    requires n >= 2
    ensures Interval(first, last, n) * (n - 1) as real * DAY as real == (last - first) as real
  {
    var days, gaps := Days(last - first), (n - 1) as real;
    assert days / gaps * gaps == days;
    assert days * DAY as real == (last - first) as real;
  }

  lemma Rescale(c: real, x: real, gaps: real, k: real, span: real)
    requires gaps > 0.0 && k > 0.0 && x * gaps * k == span
    ensures c <= x <==> c * gaps * k <= span
    ensures x <= c <==> span <= c * gaps * k
  {
    Compare(c, x, gaps);
    Compare(x, c, gaps);
    Compare(c * gaps, x * gaps, k);
    Compare(x * gaps, c * gaps, k);
  }

  lemma Compare(a: real, b: real, k: real)
    requires k > 0.0
    ensures a <= b <==> a * k <= b * k
  {
    assert b * k - a * k == (b - a) * k;
  }

  /**
   A group is regular exactly if it has at least three charges, spans 20 to 40 days for each gap between them, and has a
   non-zero average from which no charge differs by more than a fifth.
   */
  lemma RegularIff(g: seq<Entry>)
    ensures Regular(g) <==>
            && |g| >= 3
            && 20 * DAY * (|g| - 1) <= Last(g) - First(g) <= 40 * DAY * (|g| - 1)
            && Average(g) != 0.0 && forall e :: e in g ==> Near(e.amount, Average(g))
  {
    hide First, Last, Average, Interval, Deviation, Near;
    if |g| >= 3 {
      IntervalIff(First(g), Last(g), |g|);
      if Average(g) != 0.0 {
        forall e | e in g ensures Deviation(e.amount, Average(g)) <= 0.20 <==> Near(e.amount, Average(g)) {
          NearIff(e.amount, Average(g));
        }
      }
    }
  }

  /** A reported subscription spans at least 20 and at most 40 days for each of its gaps, ending at its last charge. */
  lemma ReportedSpan(s: Subscription, out: seq<Subscription>, txs: seq<Tx>, lower: char -> char)
    requires Reports(out, txs, lower) && s in out
    ensures var g := Group(s.note, txs, lower);
            && |g| == s.occurrences >= 3
            && (forall e :: e in g ==> s.lastDate - 40 * DAY * (s.occurrences - 1) <= e.date <= s.lastDate)
            && exists e :: e in g && e.date <= s.lastDate - 20 * DAY * (s.occurrences - 1)
  {
    hide *;
    var g := Group(s.note, txs, lower);
    OutRegular(s, out, txs, lower);
    RegularSpan(g);
    DescribedEnd(s, g);
  }

  lemma OutRegular(s: Subscription, out: seq<Subscription>, txs: seq<Tx>, lower: char -> char)
    requires Reports(out, txs, lower) && s in out
    ensures Regular(Group(s.note, txs, lower)) && Describes(s, s.note, Group(s.note, txs, lower))
  {
    hide Regular, Describes, Group;
  }

  lemma DescribedEnd(s: Subscription, g: seq<Entry>)
    requires Describes(s, s.note, g)
    ensures g != [] && s.lastDate == Last(g) && s.occurrences == |g|
  {
    hide First, Last, Average, Interval;
  }

  lemma RegularSpan(g: seq<Entry>)
    requires Regular(g)
    ensures |g| >= 3 && forall e :: e in g ==> Last(g) - 40 * DAY * (|g| - 1) <= e.date <= Last(g)
    ensures exists e :: e in g && e.date <= Last(g) - 20 * DAY * (|g| - 1)
  {
    RegularIff(g);
    hide Regular, Average, Near;
    FirstIsLeast(g);
    LastIsGreatest(g);
    hide First, Last;
  }

  // ---- evenly spaced charges ----

  /** n equal charges, one every gap. */
  function Even(start: int, gap: int, n: nat, amount: real, currency: string): (g: seq<Entry>)
    ensures |g| == n && forall i :: 0 <= i < n ==> g[i] == Entry(start + i * gap, amount, currency)
  {
    seq(n, i => Entry(start + i * gap, amount, currency))
  }

  lemma EvenStep(start: int, gap: int, n: nat, amount: real, currency: string)
    ensures Even(start, gap, n + 1, amount, currency) ==
            Even(start, gap, n, amount, currency) + [Entry(start + n * gap, amount, currency)]
  {}

  lemma {:induction false} EvenFigures(start: int, gap: int, n: nat, amount: real, currency: string)
    requires n > 0 && gap >= 0
    ensures var g := Even(start, gap, n, amount, currency);
            First(g) == start && Last(g) == start + (n - 1) * gap && Sum(AmountOf(), g) == n as real * amount
    decreases n
  {
    EvenStep(start, gap, n - 1, amount, currency);
    var init, e := Even(start, gap, n - 1, amount, currency), Entry(start + (n - 1) * gap, amount, currency);
    SumAfter(AmountOf(), init, e);
    if n > 1 {
      EvenFigures(start, gap, n - 1, amount, currency);
      EndsAfter(init, e);
      assert (n - 1) * gap == (n - 2) * gap + gap;
      assert (n - 2) * gap >= 0;
      assert n as real * amount == (n - 1) as real * amount + amount;
    } else {
      assert init == [];
    }
    hide First, Last, Sum, Even;
  }

  lemma EvenAverage(start: int, gap: int, n: nat, amount: real, currency: string)
    requires n > 0 && gap >= 0
    ensures Average(Even(start, gap, n, amount, currency)) == amount
  {
    EvenFigures(start, gap, n, amount, currency);
    hide Sum, Even;
    assert n as real * amount / n as real == amount;
  }

  lemma GapScale(n: int, a: int, b: int)
    requires n > 0
    ensures a <= b <==> a * n <= b * n
  {
    assert b * n - a * n == (b - a) * n;
  }

  /** Equal charges at an even gap are reported exactly if there are three of them and the gap is 20 to 40 days. */
  lemma EvenReportedIff(start: int, gap: int, n: nat, amount: real, currency: string)
    requires gap >= 0
    ensures Regular(Even(start, gap, n, amount, currency)) <==>
            n >= 3 && amount != 0.0 && 20 * DAY <= gap <= 40 * DAY
  {
    hide *;
    var g := Even(start, gap, n, amount, currency);
    if n >= 3 {
      EvenFigures(start, gap, n, amount, currency);
      EvenAverage(start, gap, n, amount, currency);
      GapScale(n - 1, 20 * DAY, gap);
      GapScale(n - 1, gap, 40 * DAY);
      EqualNear(g, amount);
    }
    RegularIff(g);
  }

  lemma EqualNear(g: seq<Entry>, amount: real)
    requires forall i :: 0 <= i < |g| ==> g[i].amount == amount
    ensures forall e :: e in g ==> Near(e.amount, amount)
  {
    assert forall e :: e in g ==> e.amount == amount;
  }

  // ---- what a group collects ----

  /** An expense with a note and an amount joins the group of its trimmed, lower-cased note, and no other. */
  lemma ExpenseJoins(key: string, txs: seq<Tx>, tx: Tx, lower: char -> char)
    requires tx.kind == EXPENSE && !tx.internal && tx.amount.Some? && Trim(tx.note) != ""
    ensures Group(key, txs + [tx], lower) ==
            if key == MapChars(Trim(tx.note), lower)
            then Group(key, txs, lower) + [Entry(tx.date, tx.amount.value, tx.currency)]
            else Group(key, txs, lower)
  {
    GroupAfter(key, txs, tx, lower);
    hide Group, Trim;
  }

  /** Income, internal transfers, blank notes and amounts that do not parse join none. */
  lemma OthersJoinNone(key: string, txs: seq<Tx>, tx: Tx, lower: char -> char)
    requires tx.kind == INCOME || tx.internal || tx.amount.None? || Trim(tx.note) == ""
    ensures Group(key, txs + [tx], lower) == Group(key, txs, lower)
  {
    assert |INCOME| != |EXPENSE|;
    GroupAfter(key, txs, tx, lower);
    hide Group, Trim;
  }
}
