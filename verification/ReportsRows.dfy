/** What an import makes of each data row: the stored rows, column by column, and the reported errors. */
module ReportsRows {
  import opened Wrappers
  import opened Text
  import opened Orders
  import opened Calendar
  import opened Amounts
  import opened Csv
  import opened ReportFields
  import opened ReportDates
  import opened AmountInput
  import opened Reports
  import opened ReportsRuns
  import opened Kinds

  // ---- the words and the header ----

  const EXPENSE_WORDS: set<string> := {"expense", "витрата", "витрати", "видаток", "видатки"}

  const INCOME_WORDS: set<string> := {"income", "дохід", "доход", "прибуток"}

  /** Exactly these words, in any case and with space around them, are types. */
  lemma TypeWords(fold: Folding, s: string)
    ensures NormalizeType(fold, s) == Some("expense") <==> Lower(fold, Trim(s)) in EXPENSE_WORDS
    ensures NormalizeType(fold, s) == Some("income") <==> Lower(fold, Trim(s)) in INCOME_WORDS
    ensures NormalizeType(fold, s) == None <==>
            Lower(fold, Trim(s)) !in EXPENSE_WORDS && Lower(fold, Trim(s)) !in INCOME_WORDS
  {
    hide Lower, Trim;
    assert |EXPENSE| != |INCOME|;
  }

  lemma DateLength(t: string)
    requires YearFirst(t, '-').Some? || DayFirst(t, '.').Some? || YearFirst(t, '/').Some? || DayFirst(t, '/').Some?
    ensures |t| == 10
  {
    hide Day;
  }

  lemma HeaderLength(fold: Folding, row: Fields)
    requires LooksLikeHeader(fold, row)
    ensures |Trim(Field(row, 0))| == 4
  {
    hide Trim, Field;
    assert |Lower(fold, Trim(Field(row, 0)))| == |Trim(Field(row, 0))|;
  }

  /** A first row that starts with a date is data, so a file without a header loses none. */
  lemma DatedRowIsData(fold: Folding, row: Fields)
    requires ParseDate(Field(row, 0)).Some?
    ensures !LooksLikeHeader(fold, row)
  {
    hide YearFirst, DayFirst, Trim, Field;
    DateLength(Trim(Field(row, 0)));
    if LooksLikeHeader(fold, row) { HeaderLength(fold, row); }
  }

  predicate Spaces(s: string) { forall k :: 0 <= k < |s| ==> IsSpace(s[k]) }

  lemma SpacesJoin(a: string, b: string)
    ensures Spaces(a + b) <==> Spaces(a) && Spaces(b)
  {
    hide IsSpace;
    assert forall k :: 0 <= k < |a| ==> (a + b)[k] == a[k];
    assert forall k :: 0 <= k < |b| ==> (a + b)[|a| + k] == b[k];
  }

  lemma {:induction false} JoinedSpaces(row: Fields)
    ensures Spaces(Join(row)) <==> forall i :: 0 <= i < |row| ==> Spaces(row[i])
    decreases |row|
  {
    hide Spaces;
    if row == [] {
      NoSpaces(Join(row));
    } else {
      JoinedSpaces(row[1..]);
      SpacesJoin(row[0], Join(row[1..]));
      assert forall i :: 1 <= i < |row| ==> row[i] == row[1..][i - 1];
    }
  }

  lemma NoSpaces(s: string)
    requires s == ""
    ensures Spaces(s)
  {}

  lemma TrimmedAway(s: string)
    ensures Trim(s) == "" <==> Spaces(s)
  {
    var l := TrimLeft(s);
    if Trim(s) == "" { AllSpace(l); }
    hide IsSpace, TrimLeft;
    assert l != "" ==> s[|s| - |l|] == l[0];
  }

  /** A row is passed over as blank exactly if its fields hold nothing but spaces. */
  lemma BlankIff(row: Fields)
    ensures Blank(row) <==> forall i, k :: 0 <= i < |row| && 0 <= k < |row[i]| ==> IsSpace(row[i][k])
  {
    TrimmedAway(Join(row));
    JoinedSpaces(row);
    hide Join, Trim, IsSpace;
  }

  // ---- stored rows ----

  /**
   r is what this data row asks for: its date, type, amount and note columns as read, its currency or the default for
   a blank one, and a category the user may use that has the row's name, or none for a blank name.
   */
  predicate From(env: Env, user: Uuid, default: string, row: Fields, cats: seq<Category>, r: Row) {
    && r.user == user
    && ParseDate(Field(row, 0)).Some? && r.date == Midnight(ParseDate(Field(row, 0)).value, 0)
    && NormalizeType(env.fold, Field(row, 1)) == Some(r.kind)
    && NormalizeAmount(env.floats, Field(row, 3)).Some?
    && StoredCents(NormalizeAmount(env.floats, Field(row, 3)).value) == Some(r.cents)
    && (if Upper(env.fold, Trim(Field(row, 4))) == "" then r.currency == default
        else r.currency == Upper(env.fold, Trim(Field(row, 4))))
    && r.note == Field(row, 5)
    && (Trim(Field(row, 2)) == "" ==> r.category == NIL)
    && (r.category != NIL ==> exists c :: c in cats && c.id == r.category && (c.owner == NIL || c.owner == user))
  }

  lemma {:induction false} FindIsIn(cats: seq<Category>, id: Uuid)
    ensures Find(cats, id).Some? ==> Find(cats, id).value in cats && Find(cats, id).value.id == id
    decreases |cats|
  {
    if cats != [] && cats[0].id != id { FindIsIn(cats[1..], id); }
  }

  lemma EntryStores(env: Env, user: Uuid, p: Progress, e: Entry, n: nat, step: Step)
    ensures var q := ImportEntry(env, user, p, e, n, step);
            || q.rows == p.rows
            || (|q.rows| == |p.rows| + 1 && q.rows[..|p.rows|] == p.rows
                && var r := q.rows[|p.rows|];
                   && StoredCents(e.amount) == Some(r.cents)
                   && r == Row(user, r.category, r.cents, e.currency, e.kind, Midnight(e.day, 0), e.note)
                   && (e.category == "" ==> r.category == NIL)
                   && (r.category != NIL ==>
                         exists c :: c in q.categories && c.id == r.category && (c.owner == NIL || c.owner == user)))
  {
    hide StoredCents, KeyOf, Find, Midnight, WithCategory;
    var q := WithCategory(env, user, p, e, step);
    OnlyCategories(env, user, p, e, step);
    var id := CategoryOf(env, q.cache, e);
    if id.Some? && id.value != NIL { FindIsIn(q.categories, id.value); }
  }

  lemma RowStores(env: Env, user: Uuid, default: string, p: Progress, row: Fields, n: nat, step: Step)
    ensures var q := ImportRow(env, user, default, p, row, n, step);
            q.rows == p.rows
            || (|q.rows| == |p.rows| + 1 && q.rows[..|p.rows|] == p.rows
                && From(env, user, default, row, q.categories, q.rows[|p.rows|]))
  {
    hide Blank, ImportEntry, NormalizeType, ParseDate, NormalizeAmount, Trim, Upper, Field, StoredCents, Midnight;
    if !Blank(row) && ReadRow(env, row, default).Good? {
      EntryStores(env, user, p, ReadRow(env, row, default).entry, n, step);
    }
  }

  lemma FromMore(env: Env, user: Uuid, default: string, row: Fields, cats: seq<Category>, cats': seq<Category>, r: Row)
    requires From(env, user, default, row, cats, r) && cats <= cats'
    ensures From(env, user, default, row, cats', r)
  {
    hide NormalizeType, ParseDate, NormalizeAmount, Trim, Upper, Field, StoredCents, Midnight;
    if r.category != NIL {
      var c :| c in cats && c.id == r.category && (c.owner == NIL || c.owner == user);
      assert c in cats';
    }
  }

  /** The i-th new row comes from this data row. */
  ghost predicate FromSome(env: Env, user: Uuid, default: string, data: seq<Fields>, cats: seq<Category>, r: Row) {
    exists j :: 0 <= j < |data| && From(env, user, default, data[j], cats, r)
  }

  /**
   Whatever the file and the listing, every row an import stores is what one of its data rows asks for, for this user,
   and never in a category of somebody else.
   */
  lemma {:induction false} StoredRows(env: Env, user: Uuid, default: string, p: Progress, data: seq<Fields>, first: nat,
                                      steps: nat -> Step)
    ensures var q := ImportRows(env, user, default, p, data, first, steps);
            && p.rows <= q.rows && p.categories <= q.categories
            && forall i :: |p.rows| <= i < |q.rows| ==> FromSome(env, user, default, data, q.categories, q.rows[i])
    decreases |data|
  {
    hide ImportRow, From;
    if data != [] {
      var last := |data| - 1;
      StoredRows(env, user, default, p, data[..last], first, steps);
      var mid := ImportRows(env, user, default, p, data[..last], first, steps);
      var q := ImportRow(env, user, default, mid, data[last], first + last + 1, steps(last));
      RowStores(env, user, default, mid, data[last], first + last + 1, steps(last));
      CategoriesGrow(env, user, default, mid, data[last], first + last + 1, steps(last));
      forall i | |p.rows| <= i < |q.rows| ensures FromSome(env, user, default, data, q.categories, q.rows[i]) {
        if i < |mid.rows| {
          assert q.rows[..|mid.rows|][i] == mid.rows[i];
          var j :| 0 <= j < last && From(env, user, default, data[..last][j], mid.categories, mid.rows[i]);
          FromMore(env, user, default, data[j], mid.categories, q.categories, mid.rows[i]);
        }
      }
    }
  }

  lemma CategoriesGrow(env: Env, user: Uuid, default: string, p: Progress, row: Fields, n: nat, step: Step)
    ensures p.categories <= ImportRow(env, user, default, p, row, n, step).categories
  {
    hide ImportRow, Makes, ReadRow, KeyOf;
    RowChanges(env, user, default, p, row, n, step);
  }

  // ---- errors ----

  /** The reason fits the row: the first column that does not read, or a later failure of a row that does. */
  predicate Explains(env: Env, row: Fields, reason: Reason) {
    var kind, day := NormalizeType(env.fold, Field(row, 1)), ParseDate(Field(row, 0));
    var amount := NormalizeAmount(env.floats, Field(row, 3));
    && !Blank(row)
    && (reason == BadType <==> kind.None?)
    && (reason == BadDate <==> kind.Some? && day.None?)
    && (reason == BadAmount <==> kind.Some? && day.Some? && amount.None?)
    && (reason == CategoryFailed ==> Trim(Field(row, 2)) != "")
  }

  /** The reported errors name rows of the file, in order, each once, with a reason that fits. */
  predicate ErrorsFit(env: Env, data: seq<Fields>, first: nat, errors: seq<RowError>) {
    && (forall i :: 0 <= i < |errors| ==>
          first < errors[i].row <= first + |data| && Explains(env, data[errors[i].row - first - 1], errors[i].reason))
    && (forall i, j :: 0 <= i < j < |errors| ==> errors[i].row < errors[j].row)
  }

  lemma EntryErrors(env: Env, user: Uuid, p: Progress, e: Entry, n: nat, step: Step)
    ensures var q := ImportEntry(env, user, p, e, n, step);
            || q.errors == p.errors
            || q.errors == p.errors + [RowError(n, CreateFailed)]
            || (q.errors == p.errors + [RowError(n, CategoryFailed)] && e.category != "")
  {
    hide StoredCents, KeyOf, Find, Midnight, WithCategory, Creates, NewRow;
    OnlyCategories(env, user, p, e, step);
  }

  lemma RowErrors(env: Env, user: Uuid, default: string, p: Progress, row: Fields, n: nat, step: Step)
    ensures var q := ImportRow(env, user, default, p, row, n, step);
            q.errors == p.errors
            || exists reason :: q.errors == p.errors + [RowError(n, reason)] && Explains(env, row, reason)
  {
    hide Blank, ImportEntry, NormalizeType, ParseDate, NormalizeAmount, Trim, Upper, Field;
    var q := ImportRow(env, user, default, p, row, n, step);
    if !Blank(row) && ReadRow(env, row, default).Good? {
      var e := ReadRow(env, row, default).entry;
      EntryErrors(env, user, p, e, n, step);
      assert Explains(env, row, CreateFailed);
      if e.category != "" { assert Explains(env, row, CategoryFailed); }
    } else if !Blank(row) {
      assert Explains(env, row, ReadRow(env, row, default).reason);
    }
  }

  lemma MoreErrors(env: Env, init: seq<Fields>, row: Fields, first: nat, errors: seq<RowError>, errors': seq<RowError>)
    requires ErrorsFit(env, init, first, errors)
    requires errors' == errors
             || exists reason ::
                  errors' == errors + [RowError(first + |init| + 1, reason)] && Explains(env, row, reason)
    ensures ErrorsFit(env, init + [row], first, errors')
  {
    hide Explains;
    var data := init + [row];
    assert forall i :: 0 <= i < |init| ==> data[i] == init[i];
    assert data[|init|] == row;
  }

  /** Over a whole import the errors name the rows they are about. */
  lemma {:induction false} ErrorsNameRows(env: Env, user: Uuid, default: string, p: Progress, data: seq<Fields>,
                                          first: nat, steps: nat -> Step)
    requires p.errors == []
    ensures ErrorsFit(env, data, first, ImportRows(env, user, default, p, data, first, steps).errors)
    decreases |data|
  {
    hide ImportRow, ErrorsFit, Explains;
    if data == [] {
      NoErrors(env, data, first, p.errors);
    } else {
      var last := |data| - 1;
      ErrorsNameRows(env, user, default, p, data[..last], first, steps);
      var mid := ImportRows(env, user, default, p, data[..last], first, steps);
      var q := ImportRow(env, user, default, mid, data[last], first + last + 1, steps(last));
      RowErrors(env, user, default, mid, data[last], first + last + 1, steps(last));
      assert data == data[..last] + [data[last]];
      MoreErrors(env, data[..last], data[last], first, mid.errors, q.errors);
    }
  }

  lemma NoErrors(env: Env, data: seq<Fields>, first: nat, none: seq<RowError>)
    requires none == []
    ensures ErrorsFit(env, data, first, none)
  {}
}
