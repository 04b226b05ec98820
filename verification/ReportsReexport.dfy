/** Exporting imported rows again, and what a zone west of UTC does to their days. */
module ReportsReexport {
  import opened Wrappers
  import opened Text
  import opened Orders
  import opened Calendar
  import opened Amounts
  import opened Csv
  import opened CsvRoundTrip
  import opened ReportFields
  import opened AmountInput
  import opened Reports
  import opened ReportsRuns
  import opened ReportsRoundTrip
  import opened Kinds
  import opened Time

  // ---- one row ----

  /** The text of a printable day is that of no other day. */
  lemma DateTextIdentifies(day: int, day': int)
    requires 0 <= YearOf(day) <= 9999
    ensures DateText(day') == DateText(day) <==> day' == day
  {
    hide DateText, ParseDate, YearOf;
    DateReadsBack(day);
    DateReadsBackIff(day');
    if 0 <= YearOf(day') <= 9999 { DateReadsBack(day'); } else { LongDateUnread(day'); }
  }

  lemma CentsTextSign(cents: int)
    ensures CentsText(Abs(cents)) == CentsText(cents) <==> cents >= 0
  {
    hide NatText, ZeroPad;
    if cents < 0 {
      assert IsDigit(AmountText(-cents)[0]) && CentsText(cents)[0] == '-';
    }
  }

  predicate Reexports(zone: int, tx: Row, first: Fields, second: Fields) {
    && |first| == |second| == 6
    && second[1] == first[1] && second[4] == first[4]
    && (second[0] == first[0] <==> 0 <= zone < DAY)
    && (second[3] == first[3] <==> tx.cents >= 0)
    && (second[5] == first[5] <==> !HasReturn(tx.note))
  }

  /**
   An imported row is exported with the type and currency of the first file always, with its date exactly in the
   zones from UTC eastwards, with its amount exactly if that is not negative, and with its note exactly if that has
   no "\r\n".
   */
  lemma ReexportedIff(env: Env, user: Uuid, names: NamesById, names': NamesById, cats: seq<Category>, row: Row, tx: Row)
    requires Exportable(env, tx) && Same(env, user, names, cats, row, tx)
    ensures Reexports(env.zone, tx, Record(env.zone, names, tx), Record(env.zone, names', row))
  {
    hide *;
    SameFields(env, user, names, cats, row, tx);
    RecordFields(env.zone, names, tx);
    RecordFields(env.zone, names', row);
    SameDayIff(env, user, names, cats, row, tx);
    DateTextIdentifies(LocalDay(tx.date, env.zone), LocalDay(row.date, env.zone));
    CentsTextSign(tx.cents);
    NormWithoutReturn(tx.note);
    ReexportsBy(env.zone, tx, Record(env.zone, names, tx), Record(env.zone, names', row));
  }

  lemma ReexportsBy(zone: int, tx: Row, first: Fields, second: Fields)
    requires |first| == |second| == 6 && second[1] == first[1] && second[4] == first[4]
    requires second[0] == first[0] <==> 0 <= zone < DAY
    requires second[3] == first[3] <==> tx.cents >= 0
    requires second[5] == first[5] <==> !HasReturn(tx.note)
    ensures Reexports(zone, tx, first, second)
  {}

  lemma SameFields(env: Env, user: Uuid, names: NamesById, cats: seq<Category>, row: Row, tx: Row)
    requires Exportable(env, tx) && Same(env, user, names, cats, row, tx)
    ensures row.kind == tx.kind && row.currency == tx.currency
    ensures row.cents == Abs(tx.cents) && row.note == Norm(tx.note)
    ensures row.date == Midnight(LocalDay(tx.date, env.zone), 0) && 0 <= YearOf(LocalDay(tx.date, env.zone)) <= 9999
  {
    hide LocalDay, Midnight, YearOf, Norm, NameIn, CategoryAs, Abs, IsKind, Trim, Upper;
  }

  lemma SameDayIff(env: Env, user: Uuid, names: NamesById, cats: seq<Category>, row: Row, tx: Row)
    requires Same(env, user, names, cats, row, tx)
    ensures LocalDay(row.date, env.zone) == LocalDay(tx.date, env.zone) <==> 0 <= env.zone < DAY
  {
    DayRestoredIff(env, user, names, cats, row, tx);
    hide LocalDay, Same;
  }

  lemma RecordFields(zone: int, names: NamesById, tx: Row)
    ensures var fs := Record(zone, names, tx);
            && fs[0] == DateText(LocalDay(tx.date, zone)) && fs[1] == tx.kind && fs[2] == NameIn(names, tx.category)
            && fs[3] == CentsText(tx.cents) && fs[4] == tx.currency && fs[5] == tx.note
  {
    hide DateText, LocalDay, NameIn, CentsText;
  }

  // ---- the category ----

  lemma {:induction false} NameListed(cats: seq<Category>, c: Category)
    requires UniqueCategoryIds(cats) && c in cats
    ensures NameIn(NamesOf(cats), c.id) == c.name
    decreases |cats|
  {
    var last := |cats| - 1;
    if c != cats[last] {
      var i :| 0 <= i < |cats| && cats[i] == c;
      assert cats[..last][i] == c && c.id != cats[last].id;
      NameListed(cats[..last], c);
    }
  }

  lemma {:induction false} NilUnlisted(cats: seq<Category>)
    requires UniqueCategoryIds(cats)
    ensures NameIn(NamesOf(cats), NIL) == ""
    decreases |cats|
  {
    if cats != [] {
      assert cats[|cats| - 1].id != NIL;
      NilUnlisted(cats[..|cats| - 1]);
    }
  }

  /** The second file's category is the first one's up to case and surrounding space; a blank one comes back empty. */
  lemma CategoryReexported(env: Env, user: Uuid, names: NamesById, cats: seq<Category>, listed: seq<Category>, row: Row,
                           tx: Row)
    requires KeepsLatin(env.fold) && Exportable(env, tx) && Same(env, user, names, cats, row, tx)
    requires Lists(listed, cats, user) && UniqueCategoryIds(listed) && forall c :: c in cats ==> IsKind(c.kind)
    ensures var first, second := Norm(NameIn(names, tx.category)), NameIn(NamesOf(listed), row.category);
            if Trim(first) == "" then second == ""
            else Lower(env.fold, Trim(second)) == Lower(env.fold, Trim(first))
  {
    hide KeepsLatin, NameIn, NamesOf, Norm, Trim, Lower, CacheKey, IsKind, LocalDay, Upper, UniqueCategoryIds, YearOf,
         Midnight, Abs, Find;
    CategoryRestored(env, user, names, cats, row, tx);
    var name := Norm(NameIn(names, tx.category));
    if Trim(name) == "" {
      NilUnlisted(listed);
    } else {
      FindIsIn(cats, row.category);
      FindHasId(cats, row.category);
      NameListed(listed, Find(cats, row.category).value);
    }
  }

  lemma {:induction false} FindHasId(cats: seq<Category>, id: Uuid)
    ensures Find(cats, id).Some? ==> Find(cats, id).value.id == id
    decreases |cats|
  {
    if cats != [] && cats[0].id != id { FindHasId(cats[1..], id); }
  }

  // ---- the whole file ----

  /** Equal but for the category. */
  predicate AgreeBesideCategory(fs: Fields, gs: Fields) {
    |fs| == |gs| == 6 && fs[0] == gs[0] && fs[1] == gs[1] && fs[3] == gs[3] && fs[4] == gs[4] && fs[5] == gs[5]
  }

  /** The transaction comes through two exports with the same record, but for the spelling of its category. */
  predicate ComesBack(zone: int, tx: Row) { 0 <= zone < DAY && tx.cents >= 0 && !HasReturn(tx.note) }

  /**
   The file exported from the imported rows has the first file's records, in order, but for the spelling of the
   category, exactly for the transactions with no negative amount and no "\r\n" in the note, in the zones from UTC
   eastwards.
   */
  lemma ReexportUndoesImportIff(env: Env, user: Uuid, default: string, names: NamesById, names': NamesById,
                                txs: seq<Row>, categories: seq<Category>, rows: seq<Row>, listed: seq<Category>,
                                steps: nat -> Step)
    requires KeepsLatin(env.fold) && Accurate(env.floats) && forall tx :: tx in txs ==> Exportable(env, tx)
    requires UniqueCategoryIds(categories) && Lists(listed, categories, user)
    requires FreshIds(categories, steps, |txs|) && forall i :: Succeeds(steps(i))
    ensures var q := ImportRows(env, user, default, Begin(env, categories, rows, listed),
                                ReadsBackAs(env.zone, names, txs), 1, steps);
            && |q.rows| == |rows| + |txs|
            && var first, second := Records(env.zone, names, txs), Records(env.zone, names', q.rows[|rows|..]);
               forall i :: 0 <= i < |txs| ==>
                 (AgreeBesideCategory(second[i], first[i]) <==> ComesBack(env.zone, txs[i]))
  {
    hide *;
    ImportUndoesExport(env, user, default, names, txs, categories, rows, listed, steps);
    var q := ImportRows(env, user, default, Begin(env, categories, rows, listed), ReadsBackAs(env.zone, names, txs), 1,
                        steps);
    AllAgree(env, user, names, names', q.categories, q.rows[|rows|..], txs);
  }

  lemma AllAgree(env: Env, user: Uuid, names: NamesById, names': NamesById, cats: seq<Category>, restored: seq<Row>,
                 txs: seq<Row>)
    requires AllSame(env, user, names, cats, restored, txs) && forall tx :: tx in txs ==> Exportable(env, tx)
    ensures var first, second := Records(env.zone, names, txs), Records(env.zone, names', restored);
            forall i :: 0 <= i < |txs| ==>
              (AgreeBesideCategory(second[i], first[i]) <==> ComesBack(env.zone, txs[i]))
  {
    hide Exportable, Same, AgreeBesideCategory, ComesBack, Record;
    forall i | 0 <= i < |txs|
      ensures AgreeBesideCategory(Records(env.zone, names', restored)[i], Records(env.zone, names, txs)[i]) <==>
              ComesBack(env.zone, txs[i])
    {
      RecordsAgree(env, user, names, names', cats, restored[i], txs[i]);
    }
  }

  lemma RecordsAgree(env: Env, user: Uuid, names: NamesById, names': NamesById, cats: seq<Category>, row: Row, tx: Row)
    requires Exportable(env, tx) && Same(env, user, names, cats, row, tx)
    ensures AgreeBesideCategory(Record(env.zone, names', row), Record(env.zone, names, tx)) <==> ComesBack(env.zone, tx)
  {
    hide Record, Same, Exportable, HasReturn;
    ReexportedIff(env, user, names, names', cats, row, tx);
  }

  // ---- west of UTC ----

  /** Five hours west of UTC. */
  const FIVE_HOURS_WEST: int := -18_000 * SECOND

  /** Noon UTC on the first day of Unix time. */
  function Morning(user: Uuid): Row { Row(user, NIL, 100, "UAH", EXPENSE, DAY / 2, "") }

  lemma EveDay(k: int)
    requires k == 12 * 1970
    ensures MonthOf(EPOCH_DAY - 1) == k - 1 && DayOfMonth(EPOCH_DAY - 1) == 31
  {
    assert k / 12 == 1970 && k % 12 == 0 && (k - 1) % 12 == 11;
    assert FirstOfMonth(k) == EPOCH_DAY;
    NextMonth(k - 1);
    assert MonthLength(k - 1) == 31;
    MonthUnique(EPOCH_DAY - 1, k - 1);
  }

  lemma EveParts(k: int)
    requires k == 12 * 1970
    ensures (k - 1) / 12 == 1969 && (k - 1) % 12 + 1 == 12
  {}

  lemma PadEve(year: nat, month: nat, day: nat)
    requires year == 1969 && month == 12 && day == 31
    ensures ZeroPad(year, 4) + ['-'] + ZeroPad(month, 2) + ['-'] + ZeroPad(day, 2) == "1969-12-31"
  {
    assert NatText(year / 100) == "19";
    assert NatText(year / 10) == "196";
    assert NatText(year) == "1969";
    assert NatText(month) == "12";
    assert NatText(day) == "31";
  }

  /** The day before Unix time starts. */
  lemma EveText(day: int)
    requires day == EPOCH_DAY - 1
    ensures DateText(day) == "1969-12-31"
  {
    var k := 12 * 1970;
    EveParts(k);
    PadEve((k - 1) / 12, (k - 1) % 12 + 1, 31);
    hide *;
    EveDay(k);
    TextOfParts(day, (k - 1) / 12, (k - 1) % 12 + 1, 31);
  }

  lemma MorningDays(date: int, day: int)
    requires date == DAY / 2 && day == EPOCH_DAY
    ensures LocalDay(date, FIVE_HOURS_WEST) == day == LocalDay(0, 0)
    ensures LocalDay(Midnight(day, 0), FIVE_HOURS_WEST) == EPOCH_DAY - 1
  {}

  lemma OneDayLost(env: Env, user: Uuid, default: string, names: NamesById, tx: Row, none: seq<Category>,
                   rows: seq<Row>, steps: nat -> Step)
    requires KeepsLatin(env.fold) && Accurate(env.floats) && env.zone == FIVE_HOURS_WEST
    requires Exportable(env, tx) && tx.date == DAY / 2 && none == [] && rows == []
    requires UniqueCategoryIds(none) && Lists(none, none, user)
    requires FreshIds(none, steps, 1) && forall i :: Succeeds(steps(i))
    ensures var q := ImportRows(env, user, default, Begin(env, none, rows, none), ReadsBackAs(env.zone, names, [tx]), 1,
                                steps);
            && Record(env.zone, names, tx)[0] == "1970-01-01"
            && |q.rows| == 1 && Record(env.zone, names, q.rows[0])[0] == "1969-12-31"
  {
    hide *;
    MorningDays(tx.date, EPOCH_DAY);
    EpochText(EPOCH_DAY);
    EveText(EPOCH_DAY - 1);
    ImportUndoesExport(env, user, default, names, [tx], none, rows, none, steps);
    var q := ImportRows(env, user, default, Begin(env, none, rows, none), ReadsBackAs(env.zone, names, [tx]), 1, steps);
    FirstSame(env, user, names, q.categories, q.rows[|rows|..], tx);
    assert q.rows[|rows|..][0] == q.rows[0];
    SameFields(env, user, names, q.categories, q.rows[0], tx);
    RecordFields(env.zone, names, tx);
    RecordFields(env.zone, names, q.rows[0]);
  }

  lemma FirstSame(env: Env, user: Uuid, names: NamesById, cats: seq<Category>, restored: seq<Row>, tx: Row)
    requires AllSame(env, user, names, cats, restored, [tx])
    ensures |restored| == 1 && Same(env, user, names, cats, restored[0], tx)
  {
    assert [tx][0] == tx;
    hide Same;
  }

  /** Five hours west of UTC a transaction of 1 January 1970 comes back, after one export and import, the day before. */
  lemma WestOfUtcDayLost(env: Env, user: Uuid, default: string, names: NamesById, steps: nat -> Step)
    requires KeepsLatin(env.fold) && Accurate(env.floats) && env.zone == FIVE_HOURS_WEST
    requires Exportable(env, Morning(user)) && FreshIds([], steps, 1) && forall i :: Succeeds(steps(i))
    ensures var txs := [Morning(user)];
            var q := ImportRows(env, user, default, Begin(env, [], [], []), ReadsBackAs(env.zone, names, txs), 1,
                                steps);
            && Record(env.zone, names, txs[0])[0] == "1970-01-01"
            && |q.rows| == 1 && Record(env.zone, names, q.rows[0])[0] == "1969-12-31"
  {
    NothingListed([], user);
    hide *;
    OneDayLost(env, user, default, names, Morning(user), [], [], steps);
  }

  lemma NothingListed(none: seq<Category>, user: Uuid)
    requires none == []
    ensures UniqueCategoryIds(none) && Lists(none, none, user)
  {}
}
