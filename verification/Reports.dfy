/** reports.Service: CSV export and import of a user's transactions. */
module Reports {
  import opened Wrappers
  import opened Text
  import opened Orders
  import opened Calendar
  import opened Amounts
  import opened Csv
  import opened ReportFields
  import opened AmountInput

  /** owner NIL is SQL NULL: a default category everybody sees. */
  datatype Category = Category(id: Uuid, owner: Uuid, name: string, kind: string)

  /** A stored transaction; category NIL is SQL NULL. */
  datatype Row = Row(user: Uuid, category: Uuid, cents: int, currency: string, kind: string, date: int, note: string)

  /** zone is the offset transaction dates are printed in. */
  datatype Env = Env(fold: Folding, floats: Floats, zone: int)

  // ---- export ----

  type NamesById = map<Uuid, string>

  function NamesOf(cats: seq<Category>): NamesById {
    if cats == [] then map[] else NamesOf(cats[..|cats| - 1])[cats[|cats| - 1].id := cats[|cats| - 1].name]
  }

  function NameIn(names: NamesById, id: Uuid): string { if id in names then names[id] else "" }

  /** How a stored amount reads back as text: the driver gives zero without its decimals. */
  function CentsText(cents: int): string {
    if cents == 0 then "0" else if cents < 0 then "-" + AmountText(-cents) else AmountText(cents)
  }

  const HEADER: Fields := ["date", "type", "category", "amount", "currency", "note"]

  function Record(zone: int, names: NamesById, tx: Row): (fs: Fields)
    ensures |fs| == 6
  {
    [DateText(LocalDay(tx.date, zone)), tx.kind, NameIn(names, tx.category), CentsText(tx.cents), tx.currency, tx.note]
  }

  function Records(zone: int, names: NamesById, txs: seq<Row>): (r: seq<Fields>)
    ensures |r| == |txs| && NonEmpty(r)
    ensures forall i :: 0 <= i < |txs| ==> r[i] == Record(zone, names, txs[i])
  {
    seq(|txs|, i requires 0 <= i < |txs| => Record(zone, names, txs[i]))
  }

  /** The whole exported file. */
  function Exported(zone: int, names: NamesById, txs: seq<Row>): string {
    Written([HEADER] + Records(zone, names, txs))
  }

  lemma {:induction false} WrittenAfter(records: seq<Fields>, fs: Fields)
    requires NonEmpty(records) && fs != []
    ensures NonEmpty(records + [fs]) && Written(records + [fs]) == Written(records) + Line(fs)
  {
    hide Line;
    if records == [] {
      assert records + [fs] == [fs];
      assert [fs][1..] == [];
    } else {
      WrittenAfter(records[1..], fs);
      assert (records + [fs])[1..] == records[1..] + [fs];
    }
  }

  lemma ExportedAfter(zone: int, names: NamesById, txs: seq<Row>, tx: Row)
    ensures Exported(zone, names, txs + [tx]) == Exported(zone, names, txs) + Line(Record(zone, names, tx))
  {
    hide Line, Record, Written;
    var all, last := [HEADER] + Records(zone, names, txs), Record(zone, names, tx);
    assert [HEADER] + Records(zone, names, txs + [tx]) == all + [last];
    WrittenAfter(all, last);
  }

  lemma ExportedNone(zone: int, names: NamesById, txs: seq<Row>)
    requires txs == []
    ensures Exported(zone, names, txs) == Line(HEADER)
  {
    hide Line;
    var all := [HEADER] + Records(zone, names, txs);
    assert all == [HEADER] && all[1..] == [];
    assert Written(all[1..]) == "";
  }

  /** Export of the listed transactions; None stands for a listing that fails. */
  method Export(zone: int, txs: Option<seq<Row>>, cats: Option<seq<Category>>) returns (r: Result<string>)
    ensures r == if txs.Some? && cats.Some? then Ok(Exported(zone, NamesOf(cats.value), txs.value)) else Err
  {
    hide Exported, Line, Record;
    if txs.None? || cats.None? { return Err; }
    var names := map[];
    for i := 0 to |cats.value|
      invariant names == NamesOf(cats.value[..i])
    {
      assert cats.value[..i + 1][..i] == cats.value[..i];
      names := names[cats.value[i].id := cats.value[i].name];
    }
    assert cats.value[..|cats.value|] == cats.value;
    hide NamesOf;
    var b := Line(HEADER);
    ExportedNone(zone, names, txs.value[..0]);
    for i := 0 to |txs.value|
      invariant b == Exported(zone, names, txs.value[..i])
    {
      assert txs.value[..i + 1] == txs.value[..i] + [txs.value[i]];
      ExportedAfter(zone, names, txs.value[..i], txs.value[i]);
      b := b + Line(Record(zone, names, txs.value[i]));
    }
    assert txs.value[..|txs.value|] == txs.value;
    r := Ok(b);
  }

  // ---- import: one row ----

  datatype Reason = BadType | BadDate | BadAmount | CategoryFailed | CreateFailed

  datatype RowError = RowError(row: nat, reason: Reason)

  const MAX_ERRORS := 20

  /** A data row as the normalisers read it; day is the parsed date. */
  datatype Entry = Entry(kind: string, day: int, amount: string, currency: string, category: string, note: string)

  datatype Reading = Bad(reason: Reason) | Good(entry: Entry)

  function CurrencyOf(fold: Folding, s: string, default: string): string {
    var currency := Upper(fold, Trim(s));
    if currency == "" then default else currency
  }

  function ReadRow(env: Env, row: Fields, default: string): Reading {
    var kind := NormalizeType(env.fold, Field(row, 1));
    var day := ParseDate(Field(row, 0));
    var amount := NormalizeAmount(env.floats, Field(row, 3));
    if kind.None? then Bad(BadType)
    else if day.None? then Bad(BadDate)
    else if amount.None? then Bad(BadAmount)
    else Good(Entry(kind.value, day.value, amount.value, CurrencyOf(env.fold, Field(row, 4), default),
                    Trim(Field(row, 2)), Field(row, 5)))
  }

  type Cache = map<string, Uuid>

  function CacheOf(fold: Folding, cats: seq<Category>): Cache {
    if cats == [] then map[]
    else
      var last := cats[|cats| - 1];
      CacheOf(fold, cats[..|cats| - 1])[CacheKey(fold, last.kind, last.name) := last.id]
  }

  /** No later category has the key of the i-th. */
  predicate LastWithKey(fold: Folding, cats: seq<Category>, i: nat)
    requires i < |cats|
  {
    forall j :: i < j < |cats| ==>
      CacheKey(fold, cats[j].kind, cats[j].name) != CacheKey(fold, cats[i].kind, cats[i].name)
  }

  /** Of several categories with one key the cache keeps the last. */
  lemma {:induction false} CacheLastWins(fold: Folding, cats: seq<Category>, i: nat)
    requires i < |cats| && LastWithKey(fold, cats, i)
    ensures var key := CacheKey(fold, cats[i].kind, cats[i].name);
            key in CacheOf(fold, cats) && CacheOf(fold, cats)[key] == cats[i].id
    decreases |cats|
  {
    hide CacheKey;
    if i < |cats| - 1 {
      var init := cats[..|cats| - 1];
      assert forall j :: 0 <= j < |init| ==> init[j] == cats[j];
      CacheLastWins(fold, init, i);
    }
  }

  /** The state of an import between two rows. */
  datatype Progress = Progress(
    categories: seq<Category>, rows: seq<Row>, cache: Cache, imported: nat, skipped: nat, errors: seq<RowError>)

  /** What the database does for one row: the id a new category would get, and which calls succeed. */
  datatype Step = Step(newId: Uuid, createOk: bool, lookupOk: bool, insertOk: bool)

  function AddError(p: Progress, row: nat, reason: Reason): Progress {
    p.(skipped := p.skipped + 1, errors := if |p.errors| < MAX_ERRORS then p.errors + [RowError(row, reason)]
       else p.errors)
  }

  function KeyOf(env: Env, e: Entry): string { CacheKey(env.fold, e.kind, e.category) }

  /** This row needs a category that is neither listed nor made by an earlier row, and gets it. */
  predicate MakesCategory(env: Env, p: Progress, e: Entry, step: Step) {
    e.category != "" && KeyOf(env, e) !in p.cache && step.createOk
  }

  function WithCategory(env: Env, user: Uuid, p: Progress, e: Entry, step: Step): Progress {
    if MakesCategory(env, p, e, step)
    then p.(categories := p.categories + [Category(step.newId, user, e.category, e.kind)],
            cache := p.cache[KeyOf(env, e) := step.newId])
    else p
  }

  /** The category id the row gets; None when its category could not be created. */
  function CategoryOf(env: Env, cache: Cache, e: Entry): Option<Uuid> {
    if e.category == "" then Some(NIL) else if KeyOf(env, e) in cache then Some(cache[KeyOf(env, e)]) else None
  }

  function Find(cats: seq<Category>, id: Uuid): Option<Category> {
    if cats == [] then None else if cats[0].id == id then Some(cats[0]) else Find(cats[1..], id)
  }

  predicate Visible(c: Category, user: Uuid) { c.owner == NIL || c.owner == user }

  /** transaction.Service.Create succeeds. */
  predicate Creates(cats: seq<Category>, user: Uuid, category: Uuid, amount: string, step: Step) {
    && (category != NIL ==> step.lookupOk && Find(cats, category).Some? && Visible(Find(cats, category).value, user))
    && StoredCents(amount).Some? && step.insertOk
  }

  function NewRow(user: Uuid, category: Uuid, e: Entry): Row
    requires StoredCents(e.amount).Some?
  {
    Row(user, category, StoredCents(e.amount).value, e.currency, e.kind, Midnight(e.day, 0), e.note)
  }

  function ImportEntry(env: Env, user: Uuid, p: Progress, e: Entry, n: nat, step: Step): Progress {
    var q := WithCategory(env, user, p, e, step);
    match CategoryOf(env, q.cache, e)
    case None => AddError(q, n, CategoryFailed)
    case Some(id) =>
      if Creates(q.categories, user, id, e.amount, step)
      then q.(rows := q.rows + [NewRow(user, id, e)], imported := q.imported + 1)
      else AddError(q, n, CreateFailed)
  }

  /** The body of the import loop for the row numbered n. */
  function ImportRow(env: Env, user: Uuid, default: string, p: Progress, row: Fields, n: nat, step: Step): Progress {
    if Blank(row) then p
    else match ReadRow(env, row, default)
      case Bad(reason) => AddError(p, n, reason)
      case Good(e) => ImportEntry(env, user, p, e, n, step)
  }

  /** The loop over the data rows; `first` rows precede them in the file. */
  function ImportRows(env: Env, user: Uuid, default: string, p: Progress, data: seq<Fields>, first: nat,
                      steps: nat -> Step): Progress {
    if data == [] then p
    else
      var last := |data| - 1;
      var before := ImportRows(env, user, default, p, data[..last], first, steps);
      ImportRow(env, user, default, before, data[last], first + last + 1, steps(last))
  }

  /** How many rows the import passes over as the header. */
  function HeaderRows(fold: Folding, rows: seq<Fields>): nat {
    if rows != [] && LooksLikeHeader(fold, rows[0]) then 1 else 0
  }

  function Begin(env: Env, categories: seq<Category>, rows: seq<Row>, listed: seq<Category>): Progress {
    Progress(categories, rows, CacheOf(env.fold, listed), 0, 0, [])
  }

  /** The data rows of a file and the number of rows before them; None when it does not parse or is empty. */
  function DataRows(fold: Folding, data: string): (r: Option<(seq<Fields>, nat)>) {
    match ReadCsv(data)
    case Err => None
    case Ok(rows) => if rows == [] then None else Some((rows[HeaderRows(fold, rows)..], HeaderRows(fold, rows)))
  }

  /** How one row ended. */
  datatype Outcome = Ignored | Stored | Failed(reason: Reason)

  /** The counters and the error list after a row. */
  function Counted(p: Progress, o: Outcome, n: nat): Progress {
    match o
    case Ignored => p
    case Stored => p.(imported := p.imported + 1)
    case Failed(reason) => AddError(p, n, reason)
  }

  datatype ImportResult = ImportResult(imported: nat, skipped: nat, errors: seq<RowError>)

  class Service {
    const env: Env
    const user: Uuid
    var categories: seq<Category>
    var rows: seq<Row>

    constructor (env: Env, user: Uuid, categories: seq<Category>, rows: seq<Row>)
      ensures this.env == env && this.user == user && this.categories == categories && this.rows == rows
    {
      this.env, this.user, this.categories, this.rows := env, user, categories, rows;
    }

    /** The first loop of Import. */
    method BuildCache(existing: seq<Category>) returns (cache: Cache)
      ensures cache == CacheOf(env.fold, existing)
      ensures forall i :: 0 <= i < |existing| && LastWithKey(env.fold, existing, i) ==>
                var key := CacheKey(env.fold, existing[i].kind, existing[i].name);
                key in cache && cache[key] == existing[i].id
    {
      hide CacheKey, LastWithKey;
      cache := map[];
      for i := 0 to |existing|
        invariant cache == CacheOf(env.fold, existing[..i])
      {
        assert existing[..i + 1][..i] == existing[..i];
        cache := cache[CacheKey(env.fold, existing[i].kind, existing[i].name) := existing[i].id];
      }
      assert existing[..|existing|] == existing;
      forall i | 0 <= i < |existing| && LastWithKey(env.fold, existing, i)
        ensures var key := CacheKey(env.fold, existing[i].kind, existing[i].name);
                key in cache && cache[key] == existing[i].id
      {
        CacheLastWins(env.fold, existing, i);
      }
    }

    /** transaction.Service.Create */
    method CreateTransaction(category: Uuid, e: Entry, step: Step) returns (ok: bool)
      modifies this`rows
      ensures ok == Creates(categories, user, category, e.amount, step)
      ensures rows == if ok then old(rows) + [NewRow(user, category, e)] else old(rows)
    {
      hide StoredCents;
      if category != NIL {
        if !step.lookupOk { return false; }
        var found := Find(categories, category);
        if found.None? { return false; }
        if found.value.owner != NIL && found.value.owner != user { return false; }
      }
      var cents := StoredCents(e.amount);
      if cents.None? || !step.insertOk { return false; }
      rows := rows + [Row(user, category, cents.value, e.currency, e.kind, Midnight(e.day, 0), e.note)];
      ok := true;
    }

    /** The category of a row: a cached one, or a new one that is then cached. */
    method ResolveCategory(ghost p: Progress, e: Entry, cache: Cache, step: Step) returns (id: Option<Uuid>,
          after: Cache)
      requires p.categories == categories && p.cache == cache
      modifies this`categories
      ensures id == CategoryOf(env, after, e)
      ensures WithCategory(env, user, p, e, step) == p.(categories := categories, cache := after)
    {
      hide CacheKey;
      after := cache;
      if e.category == "" { return Some(NIL), after; }
      var key := KeyOf(env, e);
      if key in cache { return Some(cache[key]), after; }
      if !step.createOk { return None, after; }
      categories := categories + [Category(step.newId, user, e.category, e.kind)];
      after := cache[key := step.newId];
      id := Some(step.newId);
    }

    /** The body of the loop; p is the progress before this row. */
    method ImportOne(ghost p: Progress, row: Fields, ghost n: nat, default: string, cache: Cache, step: Step)
      returns (outcome: Outcome, after: Cache)
      requires p.categories == categories && p.rows == rows && p.cache == cache
      modifies this`categories, this`rows
      ensures ImportRow(env, user, default, p, row, n, step) ==
              Counted(p.(categories := categories, rows := rows, cache := after), outcome, n)
    {
      hide NormalizeType, ParseDate, NormalizeAmount, Blank, CurrencyOf, Creates, WithCategory, CategoryOf, NewRow,
           AddError;
      after := cache;
      if Blank(row) { return Ignored, after; }
      var kind := NormalizeType(env.fold, Field(row, 1));
      if kind.None? { return Failed(BadType), after; }
      var day := ParseDate(Field(row, 0));
      if day.None? { return Failed(BadDate), after; }
      var amount := NormalizeAmount(env.floats, Field(row, 3));
      if amount.None? { return Failed(BadAmount), after; }
      var e := Entry(kind.value, day.value, amount.value, CurrencyOf(env.fold, Field(row, 4), default),
                     Trim(Field(row, 2)), Field(row, 5));
      var id;
      id, after := ResolveCategory(p, e, cache, step);
      if id.None? { return Failed(CategoryFailed), after; }
      var ok := CreateTransaction(id.value, e, step);
      outcome := if ok then Stored else Failed(CreateFailed);
    }

    /** Import; listed is what the category listing returns, None an error. */
    method Import(data: string, default: string, listed: Option<seq<Category>>,
                  steps: nat -> Step) returns (r: Result<ImportResult>)
      modifies this`categories, this`rows
      ensures r.Ok? <==> DataRows(env.fold, data).Some? && listed.Some?
      ensures r.Err? ==> categories == old(categories) && rows == old(rows)
      ensures r.Ok? ==>
                var file := DataRows(env.fold, data).value;
                var p := ImportRows(env, user, default, Begin(env, old(categories), old(rows), listed.value), file.0,
                                    file.1, steps);
                categories == p.categories && rows == p.rows && r.value == ImportResult(p.imported, p.skipped, p.errors)
    {
      hide ReadCsv, CacheOf, LooksLikeHeader, ImportRow;
      var parsed := ReadCsv(data);
      if parsed.Err? || parsed.value == [] { return Err; }
      var all := parsed.value;
      var start := 0;
      if LooksLikeHeader(env.fold, all[0]) { start := 1; }
      if listed.None? { return Err; }
      var cache := BuildCache(listed.value);
      var imported, skipped, errors := 0, 0, [];
      ghost var p := Begin(env, categories, rows, listed.value);
      ghost var begin, body := p, all[start..];
      for i := start to |all|
        invariant p == Progress(categories, rows, cache, imported, skipped, errors)
        invariant p == ImportRows(env, user, default, begin, body[..i - start], start, steps)
      {
        assert body[..i + 1 - start][..i - start] == body[..i - start] && body[i - start] == all[i];
        var outcome;
        outcome, cache := ImportOne(p, all[i], i + 1, default, cache, steps(i - start));
        p := ImportRow(env, user, default, p, all[i], i + 1, steps(i - start));
        match outcome
        case Ignored =>
        case Stored => imported := imported + 1;
        case Failed(reason) =>
          skipped := skipped + 1;
          if |errors| < MAX_ERRORS { errors := errors + [RowError(i + 1, reason)]; }
      }
      assert body[..|all| - start] == body;
      r := Ok(ImportResult(imported, skipped, errors));
    }
  }
}
