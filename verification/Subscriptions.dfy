/** advisor.DetectSubscriptions: groups of same-note expenses that recur about monthly at a stable amount. */
module Subscriptions {
  import opened Wrappers
  import opened Text
  import opened Sequences
  import opened Money
  import opened Time
  import opened Kinds

  datatype Entry = Entry(date: int, amount: real, currency: string)

  /** note is the group key; description None stands for bytes that are not text. */
  datatype Subscription = Subscription(
    note: string, description: Option<string>, averageAmount: real, currency: string, occurrences: nat, lastDate: int,
    averageIntervalDays: real)

  /** The group key; lower is strings.ToLower on one character. */
  function NoteKey(tx: Tx, lower: char -> char): string { MapChars(Trim(tx.note), lower) }

  function UpperAscii(c: char): char { if 'a' <= c <= 'z' then c - 32 as char else c }

  /** displayNote upper-cases the first byte, which is a character of its own only in ASCII. */
  function DisplayNote(note: string): Option<string> {
    if note == "" then Some(note)
    else if note[0] as int < 128 then Some([UpperAscii(note[0])] + note[1..])
    else None
  }

  predicate Eligible(tx: Tx, lower: char -> char) {
    tx.kind == EXPENSE && !tx.internal && NoteKey(tx, lower) != "" && tx.amount.Some?
  }

  function EntryOf(tx: Tx): Entry
    requires tx.amount.Some?
  {
    Entry(tx.date, tx.amount.value, tx.currency)
  }

  /** The eligible expenses, and those of them with one key. */
  function Eligibles(txs: seq<Tx>, lower: char -> char): seq<Entry> {
    if txs == [] then []
    else
      var tx := txs[|txs| - 1];
      Eligibles(txs[..|txs| - 1], lower) + if Eligible(tx, lower) then [EntryOf(tx)] else []
  }

  function Group(key: string, txs: seq<Tx>, lower: char -> char): seq<Entry> {
    if txs == [] then [] else Group(key, txs[..|txs| - 1], lower) + Share(key, txs[|txs| - 1], lower)
  }

  /** What one transaction adds to the group of a key. */
  function Share(key: string, tx: Tx, lower: char -> char): seq<Entry> {
    if Eligible(tx, lower) && NoteKey(tx, lower) == key then [EntryOf(tx)] else []
  }

  // ---- what makes a group a subscription ----

  function First(g: seq<Entry>): int
    requires g != []
  {
    if |g| == 1 then g[0].date else Least(First(g[..|g| - 1]), g[|g| - 1].date)
  }

  function Last(g: seq<Entry>): int
    requires g != []
  {
    if |g| == 1 then g[0].date else Greatest(Last(g[..|g| - 1]), g[|g| - 1].date)
  }

  function Least(a: int, b: int): int { if a < b then a else b }

  function Greatest(a: int, b: int): int { if a > b then a else b }

  function AmountOf(): Entry -> real { (e: Entry) => e.amount }

  function Average(g: seq<Entry>): real
    requires g != []
  {
    Sum(AmountOf(), g) / |g| as real
  }

  /** Hours() / 24 of a duration. */
  function Days(duration: int): real { duration as real / DAY as real }

  /** The average gap between n charges from the first to the last. */
  function Interval(first: int, last: int, n: int): real
    requires n >= 2
  {
    Days(last - first) / (n - 1) as real
  }

  function Deviation(amount: real, average: real): real
    requires average != 0.0
  {
    var d := (amount - average) / average;
    if d < 0.0 then -d else d
  }

  predicate Stable(g: seq<Entry>, average: real) {
    average != 0.0 && forall e :: e in g ==> Deviation(e.amount, average) <= 0.20
  }

  predicate Regular(g: seq<Entry>) {
    && |g| >= 3
    && 20.0 <= Interval(First(g), Last(g), |g|) <= 40.0
    && Stable(g, Average(g))
  }

  /** What is reported of a group: the currency is that of one of its latest charges. */
  predicate Describes(s: Subscription, key: string, g: seq<Entry>) {
    && |g| >= 3
    && s == Subscription(key, DisplayNote(key), Average(g), s.currency, |g|, Last(g), Interval(First(g), Last(g), |g|))
    && exists e :: e in g && e.date == Last(g) && e.currency == s.currency
  }

  /** Exactly the regular groups are reported, each once. */
  ghost predicate Reports(out: seq<Subscription>, txs: seq<Tx>, lower: char -> char) {
    && (forall s :: s in out ==> Regular(Group(s.note, txs, lower)) && Describes(s, s.note, Group(s.note, txs, lower)))
    && (forall key :: Regular(Group(key, txs, lower)) ==> exists s :: s in out && s.note == key)
    && OncePerNote(out)
  }

  ghost predicate OncePerNote(out: seq<Subscription>) {
    (forall s, t :: s in out && t in out && s.note == t.note ==> s == t) && (forall s :: multiset(out)[s] <= 1)
  }

  // ---- one group ----

  function Later(): Entry -> real { (e: Entry) => -(e.date as real) }

  predicate ByDate(g: seq<Entry>) { forall i, j :: 0 <= i < j < |g| ==> g[i].date <= g[j].date }

  lemma {:induction false} FirstIsLeast(g: seq<Entry>)
    requires g != []
    ensures (forall e :: e in g ==> First(g) <= e.date) && exists e :: e in g && e.date == First(g)
  {
    if |g| > 1 {
      var init, last := g[..|g| - 1], g[|g| - 1];
      assert g == init + [last];
      FirstIsLeast(init);
      var e :| e in init && e.date == First(init);
      assert e in g && last in g;
    } else {
      assert g[0] in g;
    }
  }

  lemma {:induction false} LastIsGreatest(g: seq<Entry>)
    requires g != []
    ensures (forall e :: e in g ==> e.date <= Last(g)) && exists e :: e in g && e.date == Last(g)
  {
    if |g| > 1 {
      var init, last := g[..|g| - 1], g[|g| - 1];
      assert g == init + [last];
      LastIsGreatest(init);
      var e :| e in init && e.date == Last(init);
      assert e in g && last in g;
    } else {
      assert g[0] in g;
    }
  }

  /** In date order the first and last charges are the earliest and the latest. */
  lemma SortedEnds(sorted: seq<Entry>, g: seq<Entry>)
    requires g != [] && ByDate(sorted) && |sorted| == |g| && forall e :: e in sorted <==> e in g
    ensures sorted[0].date == First(g) && sorted[|sorted| - 1].date == Last(g)
  {
    FirstIsLeast(g);
    LastIsGreatest(g);
    assert sorted[0] in g && sorted[|sorted| - 1] in g;
    assert forall e :: e in sorted ==> sorted[0].date <= e.date <= sorted[|sorted| - 1].date;
  }

  lemma DaysAdd(a: int, b: int, c: int)
    ensures Days(b - a) + Days(c - b) == Days(c - a)
  {}

  /** The loop over adjacent gaps: the sum telescopes. */
  method SumGaps(sorted: seq<Entry>) returns (sum: real)
    requires sorted != []
    ensures sum == Days(sorted[|sorted| - 1].date - sorted[0].date)
  {
    sum := 0.0;
    for i := 1 to |sorted|
      invariant sum == Days(sorted[i - 1].date - sorted[0].date)
    {
      DaysAdd(sorted[0].date, sorted[i - 1].date, sorted[i].date);
      sum := sum + Days(sorted[i].date - sorted[i - 1].date);
    }
  }

  /** The loops for the average and the largest deviation. */
  method AverageAmount(sorted: seq<Entry>) returns (average: real)
    requires sorted != []
    ensures average == Average(sorted)
  {
    var sum := 0.0;
    for i := 0 to |sorted|
      invariant sum == Sum(AmountOf(), sorted[..i])
    {
      SumTake(AmountOf(), sorted, i);
      sum := sum + sorted[i].amount;
    }
    assert sorted[..|sorted|] == sorted;
    average := sum / |sorted| as real;
  }

  method MaxDeviation(sorted: seq<Entry>, average: real) returns (most: real)
    requires average != 0.0
    ensures forall e :: e in sorted ==> Deviation(e.amount, average) <= most
    ensures most == 0.0 || exists e :: e in sorted && Deviation(e.amount, average) == most
  {
    hide Deviation;
    most := 0.0;
    for i := 0 to |sorted|
      invariant forall n :: 0 <= n < i ==> Deviation(sorted[n].amount, average) <= most
      invariant most == 0.0 || exists n :: 0 <= n < i && Deviation(sorted[n].amount, average) == most
    {
      var dev := Deviation(sorted[i].amount, average);
      if dev > most { most := dev; }
    }
  }

  /** The body of the loop over the groups. */
  method Examine(key: string, entries: seq<Entry>) returns (r: Option<Subscription>)
    ensures r.Some? <==> Regular(entries)
    ensures r.Some? ==> Describes(r.value, key, entries)
  {
    hide Deviation, Interval, First, Last, Sum;
    if |entries| < 3 { return None; }
    var sorted := SortDescending(entries, Later());
    SortedByDate(entries, sorted);
    var intervalSum := SumGaps(sorted);
    var interval := DivideGaps(intervalSum, sorted[0].date, sorted[|sorted| - 1].date, |sorted|);
    if interval < 20.0 || interval > 40.0 { return None; }
    var average := AverageAmount(sorted);
    if average == 0.0 { return None; }
    var most := MaxDeviation(sorted, average);
    assert Stable(entries, average) <==> most <= 0.20;
    if most > 0.20 { return None; }
    var last := sorted[|sorted| - 1];
    assert last in entries;
    r := Some(Subscription(key, DisplayNote(key), average, last.currency, |sorted|, last.date, interval));
  }

  function DivideGaps(sum: real, first: int, last: int, n: int): (r: real)
    requires n >= 2 && sum == Days(last - first)
    ensures r == Interval(first, last, n)
  {
    sum / (n - 1) as real
  }

  lemma SortedByDate(entries: seq<Entry>, sorted: seq<Entry>)
    requires entries != [] && Descending(sorted, Later()) && multiset(sorted) == multiset(entries)
             && |sorted| == |entries|
    ensures ByDate(sorted) && (forall e :: e in sorted <==> e in entries)
    ensures sorted[0].date == First(entries) && sorted[|sorted| - 1].date == Last(entries)
    ensures Average(sorted) == Average(entries)
  {
    forall i, j | 0 <= i < j < |sorted| ensures sorted[i].date <= sorted[j].date {
      assert Later()(sorted[i]) >= Later()(sorted[j]);
    }
    assert forall e :: e in sorted <==> e in multiset(sorted);
    assert forall e :: e in entries <==> e in multiset(entries);
    SortedEnds(sorted, entries);
    SumPermutation(AmountOf(), sorted, entries);
  }

  // ---- all groups ----

  type Groups = map<string, seq<Entry>>

  /** Each key's entries, in the order of the transactions; no empty group. */
  ghost predicate Grouped(groups: Groups, txs: seq<Tx>, lower: char -> char) {
    forall key :: EntriesAt(groups, key) == Group(key, txs, lower) && (key in groups ==> groups[key] != [])
  }

  function EntriesAt(groups: Groups, key: string): seq<Entry> { if key in groups then groups[key] else [] }

  function Appended(groups: Groups, key: string, e: Entry): Groups { groups[key := EntriesAt(groups, key) + [e]] }

  lemma GroupStep(txs: seq<Tx>, i: nat, key: string, lower: char -> char)
    requires i < |txs|
    ensures Group(key, txs[..i + 1], lower) == Group(key, txs[..i], lower) + Share(key, txs[i], lower)
  {
    assert txs[..i + 1][..i] == txs[..i];
  }

  lemma GroupedStep(groups: Groups, txs: seq<Tx>, i: nat, lower: char -> char)
    requires i < |txs| && Grouped(groups, txs[..i], lower)
    ensures Grouped(if Eligible(txs[i], lower) then Appended(groups, NoteKey(txs[i], lower), EntryOf(txs[i]))
                    else groups,
                    txs[..i + 1], lower)
  {
    hide Group, Eligible, NoteKey;
    forall key ensures Group(key, txs[..i + 1], lower) == Group(key, txs[..i], lower) + Share(key, txs[i], lower) {
      GroupStep(txs, i, key, lower);
    }
  }

  lemma NothingGrouped(lower: char -> char)
    ensures Grouped(map[], [], lower)
  {}

  /** The first loop. */
  method GroupByNote(txs: seq<Tx>, lower: char -> char) returns (groups: Groups)
    ensures Grouped(groups, txs, lower)
  {
    hide Grouped;
    groups := map[];
    NothingGrouped(lower);
    assert txs[..0] == [];
    for i := 0 to |txs|
      invariant Grouped(groups, txs[..i], lower)
    {
      var tx := txs[i];
      GroupedStep(groups, txs, i, lower);
      if tx.kind != EXPENSE || tx.internal { continue; }
      var note := NoteKey(tx, lower);
      if note == "" { continue; }
      if tx.amount.None? { continue; }
      groups := Appended(groups, note, EntryOf(tx));
    }
    assert txs[..|txs|] == txs;
  }

  /** The groups already visited have been reported as they should. */
  ghost predicate Reported(out: seq<Subscription>, groups: Groups, left: set<string>) {
    && (forall s :: s in out ==> s.note in groups && s.note !in left && Regular(groups[s.note])
                                 && Describes(s, s.note, groups[s.note]))
    && (forall key :: key in groups && key !in left && Regular(groups[key]) ==> exists s :: s in out && s.note == key)
    && OncePerNote(out)
  }

  lemma ReportedStep(out: seq<Subscription>, groups: Groups, left: set<string>, key: string, r: Option<Subscription>)
    requires Reported(out, groups, left) && key in left && key in groups
    requires (r.Some? <==> Regular(groups[key])) && (r.Some? ==> Describes(r.value, key, groups[key]))
    ensures Reported(if r.Some? then out + [r.value] else out, groups, left - {key})
  {
    hide Regular;
    if r.Some? {
      assert r.value.note == key;
      hide Describes;
      assert r.value !in out;
      AppendOnce(out, r.value);
    }
  }

  lemma AllReported(lines: seq<Subscription>, out: seq<Subscription>, groups: Groups, txs: seq<Tx>, lower: char -> char)
    requires Grouped(groups, txs, lower) && Reported(lines, groups, {}) && multiset(out) == multiset(lines)
    ensures Reports(out, txs, lower)
  {
    assert forall g: seq<Entry> :: Regular(g) ==> g != [];
    SameOnce(lines, out);
    forall s | s in lines ensures groups[s.note] == Group(s.note, txs, lower) {
      assert EntriesAt(groups, s.note) == Group(s.note, txs, lower);
    }
    forall key | Regular(Group(key, txs, lower)) ensures exists s :: s in lines && s.note == key {
      assert EntriesAt(groups, key) == Group(key, txs, lower);
    }
    hide Grouped, EntriesAt, Group, Regular, Describes, OncePerNote;
  }

  lemma SameOnce(lines: seq<Subscription>, out: seq<Subscription>)
    requires multiset(out) == multiset(lines)
    ensures forall s :: s in out <==> s in lines
    ensures OncePerNote(lines) ==> OncePerNote(out)
  {
    assert forall s :: s in out <==> s in multiset(out);
    assert forall s :: s in lines <==> s in multiset(lines);
  }

  method DetectSubscriptions(txs: seq<Tx>, lower: char -> char) returns (out: seq<Subscription>)
    ensures Reports(out, txs, lower)
    ensures Descending(out, (s: Subscription) => s.averageAmount)
  {
    hide Grouped, Regular, Describes, Reports, Reported;
    var groups := GroupByNote(txs, lower);
    var lines: seq<Subscription> := [];
    var left := groups.Keys;
    NothingReported(groups);
    while left != {}
      invariant left <= groups.Keys && Reported(lines, groups, left)
      decreases left
    {
      var key :| key in left;
      var r := Examine(key, groups[key]);
      ReportedStep(lines, groups, left, key, r);
      left := left - {key};
      if r.Some? { lines := lines + [r.value]; }
    }
    out := SortDescending(lines, (s: Subscription) => s.averageAmount);
    AllReported(lines, out, groups, txs, lower);
  }

  lemma NothingReported(groups: Groups)
    ensures Reported([], groups, groups.Keys)
  {}

  // ---- every eligible expense is in exactly one group ----

  /** The groups of some keys, one after another. */
  function Concat(keys: seq<string>, txs: seq<Tx>, lower: char -> char): seq<Entry> {
    if keys == [] then [] else Concat(keys[..|keys| - 1], txs, lower) + Group(keys[|keys| - 1], txs, lower)
  }

  lemma {:induction false} ConcatStep(keys: seq<string>, txs: seq<Tx>, tx: Tx, lower: char -> char)
    requires Distinct(keys)
    ensures multiset(Concat(keys, txs + [tx], lower)) ==
            multiset(Concat(keys, txs, lower))
            + if NoteKey(tx, lower) in keys then multiset(Share(NoteKey(tx, lower), tx, lower)) else multiset{}
  {
    hide Group, Share, NoteKey;
    if keys != [] {
      var init, key := keys[..|keys| - 1], keys[|keys| - 1];
      ConcatStep(init, txs, tx, lower);
      GroupAfter(key, txs, tx, lower);
      assert keys == init + [key] && key !in init;
      NoShare(key, tx, lower);
      Appending(Concat(init, txs, lower), Concat(init, txs + [tx], lower), Group(key, txs, lower),
                Share(key, tx, lower));
    }
  }

  lemma NoShare(key: string, tx: Tx, lower: char -> char)
    ensures key != NoteKey(tx, lower) ==> Share(key, tx, lower) == []
  {}

  lemma Appending(a: seq<Entry>, a': seq<Entry>, g: seq<Entry>, more: seq<Entry>)
    ensures multiset(a' + (g + more)) == multiset(a') + multiset(g) + multiset(more)
    ensures multiset(a + g) == multiset(a) + multiset(g)
  {}

  lemma GroupAfter(key: string, txs: seq<Tx>, tx: Tx, lower: char -> char)
    ensures Group(key, txs + [tx], lower) == Group(key, txs, lower) + Share(key, tx, lower)
  {
    assert (txs + [tx])[..|txs|] == txs;
  }

  /** Over any listing of the keys that occur, the groups together are the eligible expenses, each counted once. */
  lemma {:induction false} GroupsPartition(keys: seq<string>, txs: seq<Tx>, lower: char -> char)
    requires Distinct(keys) && forall tx :: tx in txs && Eligible(tx, lower) ==> NoteKey(tx, lower) in keys
    ensures multiset(Concat(keys, txs, lower)) == multiset(Eligibles(txs, lower))
    decreases |txs|
  {
    if txs == [] {
      NoGroups(keys, txs, lower);
    } else {
      var init, tx := txs[..|txs| - 1], txs[|txs| - 1];
      assert txs == init + [tx];
      GroupsPartition(keys, init, lower);
      ConcatStep(keys, init, tx, lower);
    }
  }

  lemma {:induction false} NoGroups(keys: seq<string>, txs: seq<Tx>, lower: char -> char)
    requires txs == []
    ensures Concat(keys, txs, lower) == []
  {
    if keys != [] { NoGroups(keys[..|keys| - 1], txs, lower); }
  }

  // ---- bounds ----

  lemma {:induction false} GroupWithin(key: string, txs: seq<Tx>, lower: char -> char, from: int, to: int)
    requires forall tx :: tx in txs ==> from <= tx.date <= to
    ensures forall e :: e in Group(key, txs, lower) ==> from <= e.date <= to
  {
    if txs != [] {
      var init, last := txs[..|txs| - 1], txs[|txs| - 1];
      assert last in txs && forall tx :: tx in init ==> tx in txs;
      GroupWithin(key, init, lower, from, to);
      hide Eligible, NoteKey;
    }
  }

  /**
   A subscription has at most 10 charges: the listing reaches back 180 days from a first reading of the
   clock and up to a second one, less than 20 days later.
   */
  lemma AtMostTenCharges(s: Subscription, out: seq<Subscription>, txs: seq<Tx>, lower: char -> char, from: int, to: int)
    requires Reports(out, txs, lower) && s in out
    requires to - from < 200 * DAY && forall tx :: tx in txs ==> from <= tx.date <= to
    ensures s.occurrences <= 10
  {
    var g := Group(s.note, txs, lower);
    assert |g| >= 3 && s.occurrences == |g| && 20.0 <= Interval(First(g), Last(g), |g|);
    hide Group, Regular, Describes, Reports;
    GroupWithin(s.note, txs, lower, from, to);
    FirstIsLeast(g);
    LastIsGreatest(g);
    hide First, Last;
    SpanBound(First(g), Last(g), |g|);
  }

  lemma SpanBound(first: int, last: int, n: int)
    requires n >= 2 && 20.0 <= Interval(first, last, n) && last - first < 200 * DAY
    ensures n <= 10
  {
    var days, gaps := Days(last - first), (n - 1) as real;
    assert days < 200.0;
    assert days == Interval(first, last, n) * gaps;
  }

  /** With positive amounts, the dearest charge is at most one and a half times the cheapest. */
  lemma StableAmounts(g: seq<Entry>, a: Entry, b: Entry)
    requires Regular(g) && a in g && b in g && forall e :: e in g ==> e.amount > 0.0
    ensures a.amount <= 1.5 * b.amount
  {
    SumPositive(g);
    hide Regular, Average;
    DeviationBounds(a.amount, Average(g));
    DeviationBounds(b.amount, Average(g));
  }

  lemma SumPositive(g: seq<Entry>)
    requires g != [] && forall e :: e in g ==> e.amount > 0.0
    ensures Average(g) > 0.0
  {
    SumNonNegative(AmountOf(), g[..|g| - 1]);
  }

  lemma DeviationBounds(amount: real, average: real)
    requires average > 0.0 && Deviation(amount, average) <= 0.20
    ensures 0.8 * average <= amount <= 1.2 * average
  {
    var d := (amount - average) / average;
    assert d * average == amount - average;
    assert -0.2 <= d <= 0.2;
    assert (d + 0.2) * average >= 0.0 && (0.2 - d) * average >= 0.0;
  }

  lemma EndsAfter(g: seq<Entry>, e: Entry)
    requires g != []
    ensures First(g + [e]) == Least(First(g), e.date) && Last(g + [e]) == Greatest(Last(g), e.date)
  {
    assert (g + [e])[..|g|] == g;
  }

  /** Only the ends count: three equal charges, two of them on one day, pass for a monthly subscription. */
  lemma UnevenGapsAccepted(amount: real, currency: string)
    requires amount > 0.0
    ensures Regular([Entry(0, amount, currency), Entry(0, amount, currency), Entry(60 * DAY, amount, currency)])
  {
    var e, f := Entry(0, amount, currency), Entry(60 * DAY, amount, currency);
    var none: seq<Entry> := [];
    var one := [e];
    var two := one + [e];
    var g := two + [f];
    EndsAfter(one, e);
    EndsAfter(two, f);
    SumAfter(AmountOf(), none, e);
    assert none + [e] == one;
    SumAfter(AmountOf(), one, e);
    SumAfter(AmountOf(), two, f);
    assert First(one) == Last(one) == 0;
    hide First, Last, Sum;
    assert First(g) == 0 && Last(g) == 60 * DAY;
    assert g == [e, e, f];
    assert Average(g) == amount;
    assert Days(60 * DAY) == 60.0;
  }

  // ---- descriptions ----

  predicate Capital(c: char) { 'A' <= c <= 'Z' }

  lemma DisplayNoteInjective(a: string, b: string)
    requires a != "" && b != "" && !Capital(a[0]) && !Capital(b[0])
    requires DisplayNote(a).Some? && DisplayNote(a) == DisplayNote(b)
    ensures a == b
  {
    assert DisplayNote(a).value[0] == UpperAscii(a[0]) && DisplayNote(b).value[0] == UpperAscii(b[0]);
    assert DisplayNote(a).value[1..] == a[1..] && DisplayNote(b).value[1..] == b[1..];
    assert a == [a[0]] + a[1..] && b == [b[0]] + b[1..];
  }

  lemma {:induction false} GroupHasKey(key: string, txs: seq<Tx>, lower: char -> char)
    requires Group(key, txs, lower) != []
    ensures exists tx :: tx in txs && Eligible(tx, lower) && NoteKey(tx, lower) == key
  {
    hide Eligible, NoteKey;
    var init, last := txs[..|txs| - 1], txs[|txs| - 1];
    if Share(key, last, lower) == [] {
      GroupHasKey(key, init, lower);
      var tx :| tx in init && Eligible(tx, lower) && NoteKey(tx, lower) == key;
      assert tx in txs;
    } else {
      assert last in txs;
    }
  }

  lemma KeyIsLower(key: string, txs: seq<Tx>, lower: char -> char)
    requires Group(key, txs, lower) != [] && forall c: char :: !Capital(lower(c))
    ensures key != "" && !Capital(key[0])
  {
    GroupHasKey(key, txs, lower);
    var tx :| tx in txs && Eligible(tx, lower) && NoteKey(tx, lower) == key;
    assert key[0] == lower(Trim(tx.note)[0]);
  }

  /**
   A reported description is text exactly if the note starts with an ASCII character, and two subscriptions never
   share one.
   */
  lemma DescriptionsReadableIff(out: seq<Subscription>, txs: seq<Tx>, lower: char -> char, s: Subscription,
                                t: Subscription)
    requires Reports(out, txs, lower) && s in out && t in out && forall c: char :: !Capital(lower(c))
    ensures s.note != "" && (s.description.Some? <==> s.note[0] as int < 128)
    ensures s.description.Some? && s.description == t.description ==> s == t
  {
    hide Stable, Average, Interval, First, Last, Group, NoteKey;
    KeyIsLower(s.note, txs, lower);
    KeyIsLower(t.note, txs, lower);
    if s.description.Some? && s.description == t.description { DisplayNoteInjective(s.note, t.note); }
  }
}
