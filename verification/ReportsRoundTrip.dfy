/** Importing an exported file. */
module ReportsRoundTrip {
  import opened Wrappers
  import opened Text
  import opened Orders
  import opened Calendar
  import opened Amounts
  import opened Csv
  import opened CsvRoundTrip
  import opened ReportFields
  import opened AmountInput
  import opened Reports
  import opened ReportsRuns
  import opened Kinds
  import opened Time

  /** What the round trip needs of a transaction; the currency is upper-case, trimmed and on one line. */
  predicate Exportable(env: Env, tx: Row) {
    && IsKind(tx.kind)
    && -CENTS_LIMIT < tx.cents < CENTS_LIMIT
    && 0 <= YearOf(LocalDay(tx.date, env.zone)) <= 9999
    && tx.currency != "" && Upper(env.fold, Trim(tx.currency)) == tx.currency && '\r' !in tx.currency
  }

  function Abs(n: int): nat { if n < 0 then -n else n }

  // ---- the file ----

  /** The fields of an exported row as the reader returns them. */
  function ReadBack(zone: int, names: NamesById, tx: Row): Fields {
    [DateText(LocalDay(tx.date, zone)), tx.kind, Norm(NameIn(names, tx.category)), CentsText(tx.cents), tx.currency,
     Norm(tx.note)]
  }

  function ReadsBackAs(zone: int, names: NamesById, txs: seq<Row>): (r: seq<Fields>)
    ensures |r| == |txs| && forall i :: 0 <= i < |txs| ==> r[i] == ReadBack(zone, names, txs[i])
  {
    seq(|txs|, i requires 0 <= i < |txs| => ReadBack(zone, names, txs[i]))
  }

  predicate Plain(s: string) {
    forall i :: 0 <= i < |s| ==> IsDigit(s[i]) || s[i] == '-' || s[i] == '.' || 'a' <= s[i] <= 'z'
  }

  lemma PlainHasNoReturn(s: string)
    requires Plain(s)
    ensures Norm(s) == s
  {
    NoReturnNorm(s);
  }

  lemma DateTextPlain(day: int)
    ensures Plain(DateText(day))
  {
    hide MonthOf, DayOfMonth, ZeroPad;
    var a, b, c := YearText(MonthOf(day) / 12), ZeroPad(MonthOf(day) % 12 + 1, 2), ZeroPad(DayOfMonth(day), 2);
    assert Plain(a) && Plain(b) && Plain(c);
  }

  lemma CentsTextPlain(cents: int)
    ensures Plain(CentsText(cents))
  {
    hide NatText, ZeroPad;
  }

  lemma SixFields(fs: Fields, gs: Fields)
    requires |fs| == 6 && |gs| == 6
    requires Norm(fs[0]) == gs[0] && Norm(fs[1]) == gs[1] && Norm(fs[2]) == gs[2]
    requires Norm(fs[3]) == gs[3] && Norm(fs[4]) == gs[4] && Norm(fs[5]) == gs[5]
    ensures NormFields(fs) == gs
  {
    hide Norm;
  }

  lemma RecordReadsBack(env: Env, names: NamesById, tx: Row)
    requires Exportable(env, tx)
    ensures NormFields(Record(env.zone, names, tx)) == ReadBack(env.zone, names, tx)
  {
    hide Norm, DateText, CentsText, LocalDay, NameIn, Plain, IsKind, Trim, Upper, YearOf;
    DateTextPlain(LocalDay(tx.date, env.zone));
    PlainHasNoReturn(DateText(LocalDay(tx.date, env.zone)));
    KindIsPlain(tx.kind);
    PlainHasNoReturn(tx.kind);
    CentsTextPlain(tx.cents);
    PlainHasNoReturn(CentsText(tx.cents));
    NoReturnNorm(tx.currency);
    SixFields(Record(env.zone, names, tx), ReadBack(env.zone, names, tx));
  }

  lemma KindIsPlain(kind: string)
    requires IsKind(kind)
    ensures Plain(kind)
  {
    KindIsLatin(kind);
  }

  lemma HeaderIsPlain(fs: Fields)
    requires fs == HEADER
    ensures |fs| == 6 && forall i :: 0 <= i < |fs| ==> Plain(fs[i])
  {}

  lemma HeaderReadsBack(fs: Fields)
    requires fs == HEADER
    ensures NormFields(fs) == fs
  {
    HeaderIsPlain(fs);
    hide *;
    forall i | 0 <= i < |fs| ensures Norm(fs[i]) == fs[i] { PlainHasNoReturn(fs[i]); }
  }

  /** The reader returns the header and one record for each transaction. */
  lemma FileReadsBack(env: Env, names: NamesById, txs: seq<Row>)
    requires forall tx :: tx in txs ==> Exportable(env, tx)
    ensures ReadCsv(Exported(env.zone, names, txs)) == Ok([HEADER] + ReadsBackAs(env.zone, names, txs))
  {
    hide ReadCsv, Written, Record, ReadBack, Exportable;
    var records := [HEADER] + Records(env.zone, names, txs);
    ReadsBack(records);
    HeaderReadsBack(HEADER);
    var back := [HEADER] + ReadsBackAs(env.zone, names, txs);
    forall i | 0 <= i < |records| ensures NormRecords(records)[i] == back[i] {
      if i > 0 { RecordReadsBack(env, names, txs[i - 1]); }
    }
    assert NormRecords(records) == back;
  }

  lemma HeaderRecognised(fold: Folding)
    requires KeepsLatin(fold)
    ensures LooksLikeHeader(fold, HEADER)
  {
    var first := Field(HEADER, 0);
    TrimTrimmed(first);
    LowerLatin(fold, first);
  }

  // ---- one row ----

  lemma CentsTextNormal(f: Floats, cents: int)
    requires Accurate(f) && -CENTS_LIMIT < cents < CENTS_LIMIT
    ensures NormalizeAmount(f, CentsText(cents)) == Some(AmountText(Abs(cents)))
  {
    hide Accurate, NormalizeAmount, AmountText;
    if cents == 0 {
      ZeroNormal(f, "0");
    } else if cents < 0 {
      NegativeNormal(f, -cents);
    } else {
      AmountTextNormal(f, cents);
    }
  }

  /** Zero comes back with its two decimals. */
  lemma ZeroNormal(f: Floats, s: string)
    requires Accurate(f) && s == "0"
    ensures NormalizeAmount(f, s) == Some(AmountText(0))
  {
    hide Accurate, NormalizeAmount, AmountText, OnlySpaces, Dense;
    DigitsAreDense(s);
    WholeAmount(f, s, s);
    ZeroUnits(s);
  }

  lemma ZeroUnits(s: string)
    requires s == "0"
    ensures Cents(Decimal(false, s, "")) == 0
  {
    ZerosAreZero(s);
    assert s + "" == s;
  }

  /** The sign is dropped: the type carries it. */
  lemma NegativeNormal(f: Floats, cents: nat)
    requires Accurate(f) && 0 < cents < CENTS_LIMIT
    ensures NormalizeAmount(f, "-" + AmountText(cents)) == Some(AmountText(cents))
  {
    hide Accurate, NormalizeAmount, Cleaned, PlainDecimal, Cents;
    AmountParts(cents);
    var a, b := NatText(cents / 100), ZeroPad(cents % 100, 2);
    hide NatText, ZeroPad;
    var s := "-" + (a + ['.'] + b);
    NegativeSplits(a, b);
    forall i | 0 <= i < |s| ensures IsDigit(s[i]) || s[i] == '.' || s[i] == '-' {
      if 1 <= i <= |a| { assert s[i] == a[i - 1]; } else if i > |a| + 1 { assert s[i] == b[i - |a| - 2]; }
    }
    CleanedAlready(s);
    assert s == "-" + AmountText(cents);
    ShortDecimalExact(f, s);
    SameCents(a, b);
  }

  lemma SameCents(a: string, b: string)
    requires AllDigits(a) && AllDigits(b) && a != "" && |b| == 2
    ensures Cents(Decimal(true, a, b)) == Cents(Decimal(false, a, b))
  {}

  /** How an exported row is read. */
  function EntryFor(env: Env, names: NamesById, tx: Row): Entry {
    Entry(tx.kind, LocalDay(tx.date, env.zone), AmountText(Abs(tx.cents)), tx.currency,
          Trim(Norm(NameIn(names, tx.category))), Norm(tx.note))
  }

  lemma PartsRead(env: Env, row: Fields, default: string, e: Entry)
    requires |row| == 6 && NormalizeType(env.fold, row[1]) == Some(e.kind) && ParseDate(row[0]) == Some(e.day)
    requires NormalizeAmount(env.floats, row[3]) == Some(e.amount)
    requires Upper(env.fold, Trim(row[4])) == e.currency != "" && Trim(row[2]) == e.category && row[5] == e.note
    ensures ReadRow(env, row, default) == Good(e)
  {
    hide NormalizeType, ParseDate, NormalizeAmount, Upper, Trim;
  }

  lemma DateStarts(day: int)
    requires 0 <= YearOf(day) <= 9999
    ensures DateText(day) != "" && !IsSpace(DateText(day)[0])
  {
    hide DateText, MonthOf;
    DateTextShape(day);
  }

  lemma RowReads(env: Env, names: NamesById, tx: Row, default: string)
    requires KeepsLatin(env.fold) && Accurate(env.floats) && Exportable(env, tx)
    ensures !Blank(ReadBack(env.zone, names, tx))
    ensures ReadRow(env, ReadBack(env.zone, names, tx), default) == Good(EntryFor(env, names, tx))
  {
    hide KeepsLatin, Accurate, ParseDate, NormalizeType, NormalizeAmount, Norm, Blank, DateText, CentsText, AmountText,
         Trim, LocalDay,
         ReadRow, YearOf, IsSpace, IsKind, Upper, NameIn, Lower, Abs;
    var row, day := ReadBack(env.zone, names, tx), LocalDay(tx.date, env.zone);
    DateReadsBack(day);
    DateStarts(day);
    KindReadsBack(env.fold, tx.kind);
    CentsTextNormal(env.floats, tx.cents);
    NotBlank(row);
    PartsRead(env, row, default, EntryFor(env, names, tx));
  }

  // ---- categories along the way ----

  /** Every cached id is that of a category of this key that the user may use. */
  ghost predicate CacheSound(env: Env, user: Uuid, p: Progress) {
    forall k :: k in p.cache ==> Holds(env, user, p.categories, k, p.cache[k])
  }

  predicate Holds(env: Env, user: Uuid, cats: seq<Category>, k: string, id: Uuid) {
    id != NIL && Find(cats, id).Some? && Visible(Find(cats, id).value, user)
      && KeyOfCategory(env, Find(cats, id).value) == k
  }

  lemma {:induction false} FindAfter(cats: seq<Category>, c: Category, id: Uuid)
    ensures Find(cats + [c], id) ==
            if Find(cats, id).Some? then Find(cats, id) else if c.id == id then Some(c) else None
    decreases |cats|
  {
    if cats == [] {
      assert cats + [c] == [c] && [c][1..] == [];
    } else {
      FindAfter(cats[1..], c, id);
      assert (cats + [c])[1..] == cats[1..] + [c];
    }
  }

  lemma HoldsMore(env: Env, user: Uuid, cats: seq<Category>, c: Category, k: string, id: Uuid)
    requires Holds(env, user, cats, k, id)
    ensures Holds(env, user, cats + [c], k, id)
  {
    FindAfter(cats, c, id);
  }

  /** The category of an imported row: none for a blank name, otherwise one with this kind and folded name. */
  predicate CategoryAs(env: Env, user: Uuid, cats: seq<Category>, category: Uuid, kind: string, name: string) {
    if Trim(name) == "" then category == NIL else Holds(env, user, cats, CacheKey(env.fold, kind, name), category)
  }

  /** The imported row says what the exported transaction said; it is dated midnight UTC of the exported day. */
  predicate Same(env: Env, user: Uuid, names: NamesById, cats: seq<Category>, row: Row, tx: Row) {
    && row.user == user
    && row.date == Midnight(LocalDay(tx.date, env.zone), 0)
    && row.kind == tx.kind
    && row.cents == Abs(tx.cents)
    && row.currency == tx.currency
    && row.note == Norm(tx.note)
    && CategoryAs(env, user, cats, row.category, tx.kind, Norm(NameIn(names, tx.category)))
  }

  predicate Succeeds(step: Step) { step.createOk && step.lookupOk && step.insertOk }

  /** The category an entry gets, and the progress with it. */
  lemma EntryCategory(env: Env, user: Uuid, p: Progress, e: Entry, step: Step)
    requires CacheSound(env, user, p) && Succeeds(step) && step.newId != NIL && Find(p.categories, step.newId).None?
    ensures var q := WithCategory(env, user, p, e, step);
            && CacheSound(env, user, q)
            && (q.categories == p.categories || exists c: Category :: c.id == step.newId
                                                  && q.categories == p.categories + [c])
            && CategoryOf(env, q.cache, e).Some?
            && (e.category == "" ==> CategoryOf(env, q.cache, e).value == NIL)
            && (e.category != "" ==> Holds(env, user, q.categories, KeyOf(env, e), CategoryOf(env, q.cache, e).value))
  {
    hide Holds, CacheKey;
    var q := WithCategory(env, user, p, e, step);
    if MakesCategory(env, p, e, step) {
      var c := Category(step.newId, user, e.category, e.kind);
      assert q.categories == p.categories + [c];
      NewHolds(env, user, p.categories, c);
      forall k | k in q.cache ensures Holds(env, user, q.categories, k, q.cache[k]) {
        if k != KeyOf(env, e) { HoldsMore(env, user, p.categories, c, k, p.cache[k]); }
      }
    }
  }

  lemma NewHolds(env: Env, user: Uuid, cats: seq<Category>, c: Category)
    requires c.owner == user && c.id != NIL && Find(cats, c.id).None?
    ensures Holds(env, user, cats + [c], CacheKey(env.fold, c.kind, c.name), c.id)
  {
    hide CacheKey;
    FindAfter(cats, c, c.id);
  }

  lemma NewRowSame(env: Env, user: Uuid, names: NamesById, cats: seq<Category>, category: Uuid, tx: Row)
    requires Exportable(env, tx)
    requires var e := EntryFor(env, names, tx);
             (e.category == "" ==> category == NIL)
               && (e.category != "" ==> Holds(env, user, cats, KeyOf(env, e), category))
    ensures StoredCents(EntryFor(env, names, tx).amount).Some?
    ensures Same(env, user, names, cats, NewRow(user, category, EntryFor(env, names, tx)), tx)
  {
    hide LocalDay, Midnight, Trim, Norm, NameIn, StoredCents, AmountText, Holds, CacheKey, Upper;
    AmountTextStores(Abs(tx.cents));
    KeyIgnoresTrim(env.fold, tx.kind, Norm(NameIn(names, tx.category)));
  }

  /** One exported row is imported, whatever was cached before. */
  lemma RowImported(env: Env, user: Uuid, default: string, names: NamesById, p: Progress, tx: Row, n: nat, step: Step)
    requires KeepsLatin(env.fold) && Accurate(env.floats) && Exportable(env, tx)
    requires CacheSound(env, user, p) && Succeeds(step) && step.newId != NIL && Find(p.categories, step.newId).None?
    ensures var q := ImportRow(env, user, default, p, ReadBack(env.zone, names, tx), n, step);
            && CacheSound(env, user, q)
            && (q.categories == p.categories || exists c: Category :: c.id == step.newId
                                                  && q.categories == p.categories + [c])
            && q.imported == p.imported + 1 && q.skipped == p.skipped && q.errors == p.errors
            && |q.rows| == |p.rows| + 1 && q.rows[..|p.rows|] == p.rows
            && Same(env, user, names, q.categories, q.rows[|p.rows|], tx)
  {
    hide *;
    var e := EntryFor(env, names, tx);
    RowReads(env, names, tx, default);
    ReadRowImported(env, user, default, p, ReadBack(env.zone, names, tx), e, n, step);
    EntryCategory(env, user, p, e, step);
    var q := WithCategory(env, user, p, e, step);
    NewRowSame(env, user, names, q.categories, CategoryOf(env, q.cache, e).value, tx);
    EntryStored(env, user, p, e, n, step);
    OnlyRows(env, user, q, ImportEntry(env, user, p, e, n, step));
  }

  /** CacheSound looks at categories and cache alone. */
  lemma OnlyRows(env: Env, user: Uuid, p: Progress, q: Progress)
    requires p.categories == q.categories && p.cache == q.cache
    ensures CacheSound(env, user, p) == CacheSound(env, user, q)
  {}

  lemma ReadRowImported(env: Env, user: Uuid, default: string, p: Progress, row: Fields, e: Entry, n: nat, step: Step)
    requires !Blank(row) && ReadRow(env, row, default) == Good(e)
    ensures ImportRow(env, user, default, p, row, n, step) == ImportEntry(env, user, p, e, n, step)
  {
    hide Blank, ReadRow, ImportEntry;
  }

  lemma EntryStored(env: Env, user: Uuid, p: Progress, e: Entry, n: nat, step: Step)
    requires StoredCents(e.amount).Some? && Succeeds(step)
    requires var q := WithCategory(env, user, p, e, step);
             && CategoryOf(env, q.cache, e).Some?
             && (e.category == "" ==> CategoryOf(env, q.cache, e).value == NIL)
             && (e.category != "" ==> Holds(env, user, q.categories, KeyOf(env, e), CategoryOf(env, q.cache, e).value))
    ensures var q := WithCategory(env, user, p, e, step);
            ImportEntry(env, user, p, e, n, step) ==
            q.(rows := p.rows + [NewRow(user, CategoryOf(env, q.cache, e).value, e)], imported := p.imported + 1)
    ensures var q := WithCategory(env, user, p, e, step);
            q.skipped == p.skipped && q.errors == p.errors && q.imported == p.imported && q.rows == p.rows
  {
    hide StoredCents, CategoryOf, KeyOf, KeyOfCategory;
  }

  // ---- the whole file ----

  /** New ids are new: not NULL, not in use, no two alike. */
  predicate FreshIds(cats: seq<Category>, steps: nat -> Step, n: nat) {
    && (forall i :: 0 <= i < n ==> steps(i).newId != NIL && Find(cats, steps(i).newId).None?)
    && (forall i, j :: 0 <= i < j < n ==> steps(i).newId != steps(j).newId)
  }

  /** No category with this id before, and none of the first n new ids: none with it afterwards. */
  ghost predicate StillFree(cats: seq<Category>, cats': seq<Category>, steps: nat -> Step, n: nat) {
    forall id: Uuid :: Find(cats, id).None? && (forall i :: 0 <= i < n ==> steps(i).newId != id) ==>
      Find(cats', id).None?
  }

  /** Everything in txs has been imported, in order, and nothing else has happened. */
  ghost predicate AllIn(env: Env, user: Uuid, names: NamesById, p: Progress, q: Progress, txs: seq<Row>) {
    && q.imported == p.imported + |txs| && q.skipped == p.skipped && q.errors == p.errors
    && |q.rows| == |p.rows| + |txs| && q.rows[..|p.rows|] == p.rows
    && forall i :: 0 <= i < |txs| ==> Same(env, user, names, q.categories, q.rows[|p.rows| + i], txs[i])
  }

  lemma SameMore(env: Env, user: Uuid, names: NamesById, cats: seq<Category>, c: Category, row: Row, tx: Row)
    requires Same(env, user, names, cats, row, tx)
    ensures Same(env, user, names, cats + [c], row, tx)
  {
    hide Holds, CacheKey, Norm, Trim, LocalDay, NameIn;
    var name := Norm(NameIn(names, tx.category));
    if Trim(name) != "" { HoldsMore(env, user, cats, c, CacheKey(env.fold, tx.kind, name), row.category); }
  }

  lemma OneMoreIn(env: Env, user: Uuid, names: NamesById, p: Progress, mid: Progress, q: Progress, txs: seq<Row>,
                  tx: Row, c: Category)
    requires AllIn(env, user, names, p, mid, txs)
    requires q.categories == mid.categories || q.categories == mid.categories + [c]
    requires q.imported == mid.imported + 1 && q.skipped == mid.skipped && q.errors == mid.errors
    requires |q.rows| == |mid.rows| + 1 && q.rows[..|mid.rows|] == mid.rows
             && Same(env, user, names, q.categories, q.rows[|mid.rows|], tx)
    ensures AllIn(env, user, names, p, q, txs + [tx])
  {
    hide Same;
    forall i | 0 <= i < |txs| ensures Same(env, user, names, q.categories, q.rows[|p.rows| + i], txs[i]) {
      assert q.rows[|p.rows| + i] == q.rows[..|mid.rows|][|p.rows| + i];
      SameMore(env, user, names, mid.categories, c, mid.rows[|p.rows| + i], txs[i]);
    }
    assert q.rows[..|p.rows|] == q.rows[..|mid.rows|][..|p.rows|];
  }

  lemma FreeMore(cats: seq<Category>, mid: seq<Category>, cats': seq<Category>, steps: nat -> Step, n: nat, c: Category)
    requires StillFree(cats, mid, steps, n) && (cats' == mid || (c.id == steps(n).newId && cats' == mid + [c]))
    ensures StillFree(cats, cats', steps, n + 1)
  {
    forall id: Uuid | Find(cats, id).None? && (forall i :: 0 <= i < n + 1 ==> steps(i).newId != id)
      ensures Find(cats', id).None?
    {
      assert steps(n).newId != id;
      FindAfter(mid, c, id);
    }
    hide Find;
  }

  lemma {:induction false} AllImported(env: Env, user: Uuid, default: string, names: NamesById, p: Progress,
                                           txs: seq<Row>, first: nat, steps: nat -> Step)
    requires KeepsLatin(env.fold) && Accurate(env.floats) && forall tx :: tx in txs ==> Exportable(env, tx)
    requires CacheSound(env, user, p) && FreshIds(p.categories, steps, |txs|) && forall i :: Succeeds(steps(i))
    ensures var q := ImportRows(env, user, default, p, ReadsBackAs(env.zone, names, txs), first, steps);
            AllIn(env, user, names, p, q, txs) && CacheSound(env, user, q)
              && StillFree(p.categories, q.categories, steps, |txs|)
    decreases |txs|
  {
    hide KeepsLatin, Accurate, Exportable, CacheSound, AllIn, StillFree, ImportRow, ReadBack, Succeeds, Same, Find;
    var data := ReadsBackAs(env.zone, names, txs);
    if txs == [] {
      NoneIn(env, user, names, p, txs, steps);
    } else {
      var init, tx := txs[..|txs| - 1], txs[|txs| - 1];
      assert txs == init + [tx] && data[..|init|] == ReadsBackAs(env.zone, names, init);
      AllImported(env, user, default, names, p, init, first, steps);
      var mid := ImportRows(env, user, default, p, data[..|init|], first, steps);
      var step := steps(|init|);
      IdStillFree(p.categories, mid.categories, steps, |init|);
      RowImported(env, user, default, names, mid, tx, first + |init| + 1, step);
      var q := ImportRow(env, user, default, mid, ReadBack(env.zone, names, tx), first + |init| + 1, step);
      var c := AnyCategory(mid.categories, q.categories, step.newId);
      OneMoreIn(env, user, names, p, mid, q, init, tx, c);
      FreeMore(p.categories, mid.categories, q.categories, steps, |init|, c);
    }
  }

  lemma IdStillFree(cats: seq<Category>, mid: seq<Category>, steps: nat -> Step, n: nat)
    requires FreshIds(cats, steps, n + 1) && StillFree(cats, mid, steps, n)
    ensures steps(n).newId != NIL && Find(mid, steps(n).newId).None?
  {
    hide Find;
  }

  lemma AnyCategory(mid: seq<Category>, cats: seq<Category>, id: Uuid) returns (c: Category)
    requires cats == mid || exists c: Category :: c.id == id && cats == mid + [c]
    ensures c.id == id && (cats == mid || cats == mid + [c])
  {
    if cats == mid { c := Category(id, NIL, "", ""); } else { c :| c.id == id && cats == mid + [c]; }
  }

  lemma NoneIn(env: Env, user: Uuid, names: NamesById, p: Progress, txs: seq<Row>, steps: nat -> Step)
    requires txs == []
    ensures AllIn(env, user, names, p, p, txs) && StillFree(p.categories, p.categories, steps, 0)
  {}

  /** Ids are unique and not NULL. */
  predicate UniqueCategoryIds(cats: seq<Category>) {
    && (forall i :: 0 <= i < |cats| ==> cats[i].id != NIL)
    && (forall i, j :: 0 <= i < j < |cats| ==> cats[i].id != cats[j].id)
  }

  lemma {:induction false} FindUnique(cats: seq<Category>, c: Category)
    requires UniqueCategoryIds(cats) && c in cats
    ensures Find(cats, c.id) == Some(c) && c.id != NIL
    decreases |cats|
  {
    var i :| 0 <= i < |cats| && cats[i] == c;
    if i > 0 {
      assert cats[0].id != cats[i].id;
      assert cats[1..][i - 1] == c;
      FindUnique(cats[1..], c);
    }
  }

  /** The cache built from a listing is sound. */
  lemma ListedSound(env: Env, user: Uuid, categories: seq<Category>, rows: seq<Row>, listed: seq<Category>)
    requires UniqueCategoryIds(categories) && Lists(listed, categories, user)
    ensures CacheSound(env, user, Begin(env, categories, rows, listed))
  {
    CacheHolds(env, listed);
    hide CacheKey, CacheOf;
    var cache := CacheOf(env.fold, listed);
    forall k | k in cache ensures Holds(env, user, categories, k, cache[k]) {
      var c :| c in listed && KeyOfCategory(env, c) == k && c.id == cache[k];
      FindUnique(categories, c);
    }
  }

  /** The rows say what the transactions said, in order. */
  predicate AllSame(env: Env, user: Uuid, names: NamesById, cats: seq<Category>, restored: seq<Row>, txs: seq<Row>) {
    |restored| == |txs| && forall i :: 0 <= i < |txs| ==> Same(env, user, names, cats, restored[i], txs[i])
  }

  predicate SameDay(zone: int, row: Row, tx: Row) { LocalDay(row.date, zone) == LocalDay(tx.date, zone) }

  /** West of UTC midnight UTC of a day lies on the day before. */
  lemma DayOfUtcMidnight(day: int, zone: int)
    ensures LocalDay(Midnight(day, 0), zone) == day + zone / DAY
    ensures zone / DAY == 0 <==> 0 <= zone < DAY
    ensures zone / DAY == -1 <==> -DAY <= zone < 0
  {
    var d := day - EPOCH_DAY;
    assert (d * DAY + zone) / DAY == d + zone / DAY;
  }

  /** An instant is midnight UTC of its local day exactly for a midnight UTC seen from UTC or east of it. */
  lemma InstantUnchangedIff(t: int, zone: int)
    ensures Midnight(LocalDay(t, zone), 0) == t <==> t % DAY == 0 && 0 <= zone < DAY
  {
    var day := LocalDay(t, zone);
    assert Midnight(day, 0) % DAY == 0;
    if t % DAY == 0 {
      DayOfUtcMidnight(t / DAY + EPOCH_DAY, zone);
    }
  }

  /** A restored row lies on the exported day exactly in the zones from UTC eastwards, and a day early to the west. */
  lemma DayRestoredIff(env: Env, user: Uuid, names: NamesById, cats: seq<Category>, row: Row, tx: Row)
    requires Same(env, user, names, cats, row, tx)
    ensures SameDay(env.zone, row, tx) <==> 0 <= env.zone < DAY
    ensures LocalDay(row.date, env.zone) == LocalDay(tx.date, env.zone) - 1 <==> -DAY <= env.zone < 0
  {
    DayOfUtcMidnight(LocalDay(tx.date, env.zone), env.zone);
    hide LocalDay, Midnight, CategoryAs, Norm, NameIn, Abs;
  }

  /**
   Importing an exported file restores every transaction, in order, with the same type, currency and amount
   (its magnitude, if negative), with "\r\n" in the note turned into "\n", and in a category of the same type
   and name up to case and surrounding space; nothing is skipped. The restored day is the exported one exactly
   where the server's zone is UTC or east of it.
   */
  lemma ImportUndoesExport(env: Env, user: Uuid, default: string, names: NamesById, txs: seq<Row>,
                           categories: seq<Category>, rows: seq<Row>, listed: seq<Category>, steps: nat -> Step)
    requires KeepsLatin(env.fold) && Accurate(env.floats) && forall tx :: tx in txs ==> Exportable(env, tx)
    requires UniqueCategoryIds(categories) && Lists(listed, categories, user)
    requires FreshIds(categories, steps, |txs|) && forall i :: Succeeds(steps(i))
    ensures DataRows(env.fold, Exported(env.zone, names, txs)) == Some((ReadsBackAs(env.zone, names, txs), 1))
    ensures var q := ImportRows(env, user, default, Begin(env, categories, rows, listed),
                                ReadsBackAs(env.zone, names, txs), 1, steps);
            && q.imported == |txs| && q.skipped == 0 && q.errors == []
            && |q.rows| == |rows| + |txs| && q.rows[..|rows|] == rows
            && AllSame(env, user, names, q.categories, q.rows[|rows|..], txs)
            && forall i :: 0 <= i < |txs| ==>
                 (SameDay(env.zone, q.rows[|rows|..][i], txs[i]) <==> 0 <= env.zone < DAY)
  {
    hide *;
    FileReads(env, names, txs);
    ListedSound(env, user, categories, rows, listed);
    var begin := Begin(env, categories, rows, listed);
    BeginCategories(env, categories, rows, listed);
    AllImported(env, user, default, names, begin, txs, 1, steps);
    var q := ImportRows(env, user, default, begin, ReadsBackAs(env.zone, names, txs), 1, steps);
    AllInFromBegin(env, user, names, categories, rows, listed, q, txs);
    DaysRestored(env, user, names, q.categories, q.rows[|rows|..], txs);
  }

  lemma BeginCategories(env: Env, categories: seq<Category>, rows: seq<Row>, listed: seq<Category>)
    ensures Begin(env, categories, rows, listed).categories == categories
  {}

  lemma DaysRestored(env: Env, user: Uuid, names: NamesById, cats: seq<Category>, restored: seq<Row>, txs: seq<Row>)
    requires AllSame(env, user, names, cats, restored, txs)
    ensures forall i :: 0 <= i < |txs| ==> (SameDay(env.zone, restored[i], txs[i]) <==> 0 <= env.zone < DAY)
  {
    hide Same, SameDay;
    forall i | 0 <= i < |txs| ensures SameDay(env.zone, restored[i], txs[i]) <==> 0 <= env.zone < DAY {
      DayRestoredIff(env, user, names, cats, restored[i], txs[i]);
    }
  }

  lemma AllInFromBegin(env: Env, user: Uuid, names: NamesById, categories: seq<Category>, rows: seq<Row>,
                       listed: seq<Category>, q: Progress, txs: seq<Row>)
    requires AllIn(env, user, names, Begin(env, categories, rows, listed), q, txs)
    ensures q.imported == |txs| && q.skipped == 0 && q.errors == []
    ensures |q.rows| == |rows| + |txs| && q.rows[..|rows|] == rows
    ensures AllSame(env, user, names, q.categories, q.rows[|rows|..], txs)
  {
    hide Same, CacheOf;
    forall i | 0 <= i < |txs| ensures Same(env, user, names, q.categories, q.rows[|rows|..][i], txs[i]) {
      assert q.rows[|rows|..][i] == q.rows[|rows| + i];
    }
  }

  lemma FileReads(env: Env, names: NamesById, txs: seq<Row>)
    requires KeepsLatin(env.fold) && forall tx :: tx in txs ==> Exportable(env, tx)
    ensures DataRows(env.fold, Exported(env.zone, names, txs)) == Some((ReadsBackAs(env.zone, names, txs), 1))
  {
    hide ReadCsv, Exported, ReadsBackAs, LooksLikeHeader, KeepsLatin, Exportable;
    FileReadsBack(env, names, txs);
    HeaderRecognised(env.fold);
    var rows := [HEADER] + ReadsBackAs(env.zone, names, txs);
    assert rows[0] == HEADER && rows[1..] == ReadsBackAs(env.zone, names, txs);
  }

  /**
   The instant, the amount and the note come back unchanged exactly when the transaction is dated midnight UTC and
   the zone is UTC or east of it, the amount is not negative, and the note has no "\r\n".
   */
  lemma UnchangedIff(env: Env, user: Uuid, names: NamesById, cats: seq<Category>, row: Row, tx: Row)
    requires Same(env, user, names, cats, row, tx)
    ensures row.date == tx.date <==> tx.date % DAY == 0 && 0 <= env.zone < DAY
    ensures row.cents == tx.cents <==> tx.cents >= 0
    ensures row.note == tx.note <==> !HasReturn(tx.note)
  {
    InstantUnchangedIff(tx.date, env.zone);
    hide Norm, LocalDay, Midnight, CategoryAs, NameIn;
    NormWithoutReturn(tx.note);
  }

  /** The restored category has the exported type and the exported name up to case and surrounding space. */
  lemma CategoryRestored(env: Env, user: Uuid, names: NamesById, cats: seq<Category>, row: Row, tx: Row)
    requires KeepsLatin(env.fold) && Same(env, user, names, cats, row, tx) && IsKind(tx.kind)
    requires forall c :: c in cats ==> IsKind(c.kind)
    ensures var name := Norm(NameIn(names, tx.category));
            if Trim(name) == "" then row.category == NIL
            else (Find(cats, row.category).Some?
                  && Find(cats, row.category).value.kind == tx.kind
                  && Lower(env.fold, Trim(Find(cats, row.category).value.name)) == Lower(env.fold, Trim(name)))
  {
    hide KeepsLatin, Norm, NameIn, Lower, Trim, CacheKey, Find, IsKind, LocalDay;
    var name := Norm(NameIn(names, tx.category));
    if Trim(name) != "" {
      var c := Find(cats, row.category).value;
      FindIsIn(cats, row.category);
      KeyIdentifies(env.fold, c.kind, c.name, tx.kind, name);
    }
  }

  lemma {:induction false} FindIsIn(cats: seq<Category>, id: Uuid)
    ensures Find(cats, id).Some? ==> Find(cats, id).value in cats
    decreases |cats|
  {
    if cats != [] && cats[0].id != id { FindIsIn(cats[1..], id); }
  }
}
