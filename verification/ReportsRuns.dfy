/** What an import does over a whole file: counting, and the categories it makes. */
module ReportsRuns {
  import opened Orders
  import opened Csv
  import opened ReportFields
  import opened Reports

  // ---- counting ----

  function NonBlank(data: seq<Fields>): nat {
    if data == [] then 0 else NonBlank(data[..|data| - 1]) + if Blank(data[|data| - 1]) then 0 else 1
  }

  function AtMost(n: nat, most: nat): nat { if n < most then n else most }

  /** What one row that is not blank does to the counters. */
  predicate CountsOne(p: Progress, q: Progress) {
    && q.imported + q.skipped == p.imported + p.skipped + 1
    && |q.rows| - q.imported == |p.rows| - p.imported
    && (|p.errors| == AtMost(p.skipped, MAX_ERRORS) ==> |q.errors| == AtMost(q.skipped, MAX_ERRORS))
  }

  lemma ErrorCounted(p: Progress, q: Progress, n: nat, reason: Reason)
    requires q.imported == p.imported && q.skipped == p.skipped && q.rows == p.rows && q.errors == p.errors
    ensures CountsOne(p, AddError(q, n, reason))
  {}

  lemma OnlyCategories(env: Env, user: Uuid, p: Progress, e: Entry, step: Step)
    ensures var q := WithCategory(env, user, p, e, step);
            q.imported == p.imported && q.skipped == p.skipped && q.rows == p.rows && q.errors == p.errors
  {
    hide KeyOf;
  }

  lemma EntryCounted(env: Env, user: Uuid, p: Progress, e: Entry, n: nat, step: Step)
    ensures CountsOne(p, ImportEntry(env, user, p, e, n, step))
  {
    hide WithCategory, CategoryOf, Creates, NewRow, AddError;
    var q := WithCategory(env, user, p, e, step);
    OnlyCategories(env, user, p, e, step);
    ErrorCounted(p, q, n, CategoryFailed);
    ErrorCounted(p, q, n, CreateFailed);
  }

  lemma RowCounted(env: Env, user: Uuid, default: string, p: Progress, row: Fields, n: nat, step: Step)
    ensures var q := ImportRow(env, user, default, p, row, n, step); if Blank(row) then q == p else CountsOne(p, q)
  {
    hide Blank, ReadRow, ImportEntry, AddError, CountsOne;
    if !Blank(row) {
      match ReadRow(env, row, default)
      case Bad(reason) => ErrorCounted(p, p, n, reason);
      case Good(e) => EntryCounted(env, user, p, e, n, step);
    }
  }

  /** Every non-blank data row is either imported or skipped, and each imported one is a new row. */
  lemma {:induction false} ImportCounts(env: Env, user: Uuid, default: string, p: Progress, data: seq<Fields>,
                                        first: nat, steps: nat -> Step)
    ensures var q := ImportRows(env, user, default, p, data, first, steps);
            && q.imported + q.skipped == p.imported + p.skipped + NonBlank(data)
            && |q.rows| - q.imported == |p.rows| - p.imported
            && (|p.errors| == AtMost(p.skipped, MAX_ERRORS) ==> |q.errors| == AtMost(q.skipped, MAX_ERRORS))
    decreases |data|
  {
    hide ImportRow, Blank;
    if data != [] {
      var last := |data| - 1;
      ImportCounts(env, user, default, p, data[..last], first, steps);
      var before := ImportRows(env, user, default, p, data[..last], first, steps);
      RowCounted(env, user, default, before, data[last], first + last + 1, steps(last));
    }
  }

  /** For a whole import: the counters add up to the non-blank data rows and the error list is capped at 20. */
  lemma ImportAccounting(env: Env, user: Uuid, default: string, categories: seq<Category>, rows: seq<Row>,
                         listed: seq<Category>,
                         data: seq<Fields>, first: nat, steps: nat -> Step)
    ensures var q := ImportRows(env, user, default, Begin(env, categories, rows, listed), data, first, steps);
            && q.imported + q.skipped == NonBlank(data)
            && |q.errors| == AtMost(q.skipped, 20)
            && |q.rows| == |rows| + q.imported
  {
    hide ImportRows, CacheOf;
    ImportCounts(env, user, default, Begin(env, categories, rows, listed), data, first, steps);
  }

  // ---- categories ----

  function KeyOfCategory(env: Env, c: Category): string { CacheKey(env.fold, c.kind, c.name) }

  /** From p to q: categories were only added, one for each key that became cached. */
  predicate AddsCategories(env: Env, p: Progress, q: Progress) {
    && p.categories <= q.categories
    && (forall k :: k in p.cache ==> k in q.cache && q.cache[k] == p.cache[k])
    && (forall i :: |p.categories| <= i < |q.categories| ==>
          && KeyOfCategory(env, q.categories[i]) in q.cache && KeyOfCategory(env, q.categories[i]) !in p.cache)
    && (forall i, j :: |p.categories| <= i < j < |q.categories| ==>
          KeyOfCategory(env, q.categories[i]) != KeyOfCategory(env, q.categories[j]))
    && (forall k :: k in q.cache && k !in p.cache ==>
          exists i :: |p.categories| <= i < |q.categories| && KeyOfCategory(env, q.categories[i]) == k)
  }

  /** The row that makes a new category. */
  predicate Makes(env: Env, default: string, p: Progress, row: Fields, step: Step) {
    !Blank(row) && ReadRow(env, row, default).Good? && MakesCategory(env, p, ReadRow(env, row, default).entry, step)
  }

  lemma RowChanges(env: Env, user: Uuid, default: string, p: Progress, row: Fields, n: nat, step: Step)
    ensures var q := ImportRow(env, user, default, p, row, n, step);
            if Makes(env, default, p, row, step) then
              var e := ReadRow(env, row, default).entry;
              && q.categories == p.categories + [Category(step.newId, user, e.category, e.kind)]
              && q.cache == p.cache[KeyOf(env, e) := step.newId]
            else q.categories == p.categories && q.cache == p.cache
  {
    hide Blank, ReadRow, CategoryOf, Creates, NewRow, KeyOf;
  }

  lemma RowExtends(env: Env, user: Uuid, default: string, p: Progress, mid: Progress, row: Fields, n: nat, step: Step)
    requires AddsCategories(env, p, mid)
    ensures AddsCategories(env, p, ImportRow(env, user, default, mid, row, n, step))
  {
    hide ImportRow, ReadRow, Blank, CacheKey;
    RowChanges(env, user, default, mid, row, n, step);
    var q := ImportRow(env, user, default, mid, row, n, step);
    if Makes(env, default, mid, row, step) {
      var e := ReadRow(env, row, default).entry;
      MadeExtends(env, p, mid, q, Category(step.newId, user, e.category, e.kind));
    }
  }

  lemma MadeExtends(env: Env, p: Progress, mid: Progress, q: Progress, c: Category)
    requires AddsCategories(env, p, mid) && KeyOfCategory(env, c) !in mid.cache
    requires q.categories == mid.categories + [c] && q.cache == mid.cache[KeyOfCategory(env, c) := c.id]
    ensures AddsCategories(env, p, q)
  {
    hide KeyOfCategory;
    forall k | k in q.cache && k !in p.cache
      ensures exists i :: |p.categories| <= i < |q.categories| && KeyOfCategory(env, q.categories[i]) == k
    {
      if k in mid.cache {
        var i :| |p.categories| <= i < |mid.categories| && KeyOfCategory(env, mid.categories[i]) == k;
        assert q.categories[i] == mid.categories[i];
      } else {
        assert q.categories[|mid.categories|] == c;
      }
    }
  }

  /** An import makes at most one category for each kind and folded name, and none for one that was listed. */
  lemma {:induction false} OneCategoryPerKey(env: Env, user: Uuid, default: string, p: Progress, data: seq<Fields>,
                                             first: nat, steps: nat -> Step)
    ensures AddsCategories(env, p, ImportRows(env, user, default, p, data, first, steps))
    decreases |data|
  {
    hide AddsCategories, ImportRow;
    if data == [] {
      ExtendsItself(env, p);
    } else {
      var last := |data| - 1;
      OneCategoryPerKey(env, user, default, p, data[..last], first, steps);
      RowExtends(env, user, default, p, ImportRows(env, user, default, p, data[..last], first, steps), data[last],
                 first + last + 1, steps(last));
    }
  }

  lemma ExtendsItself(env: Env, p: Progress)
    ensures AddsCategories(env, p, p)
  {}

  /** The row names a category. */
  predicate Wants(env: Env, default: string, row: Fields, key: string) {
    !Blank(row) && ReadRow(env, row, default).Good?
    && ReadRow(env, row, default).entry.category != "" && KeyOf(env, ReadRow(env, row, default).entry) == key
  }

  lemma {:induction false} WantedIsCached(env: Env, user: Uuid, default: string, p: Progress, data: seq<Fields>,
                                          first: nat, steps: nat -> Step)
    requires forall i :: steps(i).createOk
    ensures forall i, key :: 0 <= i < |data| && Wants(env, default, data[i], key) ==>
              key in ImportRows(env, user, default, p, data, first, steps).cache
    decreases |data|
  {
    hide ImportRow, Wants;
    if data != [] {
      var last := |data| - 1;
      assert forall i :: 0 <= i < last ==> data[..last][i] == data[i];
      WantedIsCached(env, user, default, p, data[..last], first, steps);
      var mid := ImportRows(env, user, default, p, data[..last], first, steps);
      RowCaches(env, user, default, mid, data[last], first + last + 1, steps(last));
    }
  }

  lemma RowCaches(env: Env, user: Uuid, default: string, p: Progress, row: Fields, n: nat, step: Step)
    requires step.createOk
    ensures var q := ImportRow(env, user, default, p, row, n, step);
            && (forall key :: key in p.cache ==> key in q.cache)
            && (forall key :: Wants(env, default, row, key) ==> key in q.cache)
  {
    hide ImportRow, ReadRow, Blank, CacheKey;
    RowChanges(env, user, default, p, row, n, step);
  }

  /** When every category a file names is cached, nothing is made. */
  lemma {:induction false} NothingToMake(env: Env, user: Uuid, default: string, p: Progress, data: seq<Fields>,
                                         first: nat, steps: nat -> Step)
    requires forall i, key :: 0 <= i < |data| && Wants(env, default, data[i], key) ==> key in p.cache
    ensures var q := ImportRows(env, user, default, p, data, first, steps); q.categories == p.categories
                                                                            && q.cache == p.cache
    decreases |data|
  {
    hide ImportRow, ReadRow, Blank, CacheKey;
    if data != [] {
      var last := |data| - 1;
      assert forall i :: 0 <= i < last ==> data[..last][i] == data[i];
      NothingToMake(env, user, default, p, data[..last], first, steps);
      var mid := ImportRows(env, user, default, p, data[..last], first, steps);
      RowChanges(env, user, default, mid, data[last], first + last + 1, steps(last));
      RowMakesNone(env, default, mid, data[last], steps(last));
    }
  }

  lemma RowMakesNone(env: Env, default: string, p: Progress, row: Fields, step: Step)
    requires forall key :: Wants(env, default, row, key) ==> key in p.cache
    ensures !Makes(env, default, p, row, step)
  {
    hide ReadRow, Blank, CacheKey;
    if !Blank(row) && ReadRow(env, row, default).Good? {
      var e := ReadRow(env, row, default).entry;
      if e.category != "" { assert Wants(env, default, row, KeyOf(env, e)); }
    }
  }

  /** What the category listing returns: the user's own and the default categories, in some order. */
  predicate Lists(listed: seq<Category>, categories: seq<Category>, user: Uuid) {
    && (forall c :: c in listed ==> c in categories && Visible(c, user))
    && (forall c :: c in categories && Visible(c, user) ==> c in listed)
  }

  /** The cached id is that of one of these categories with this key. */
  ghost predicate Backs(env: Env, cats: seq<Category>, k: string, id: Uuid) {
    exists c :: c in cats && KeyOfCategory(env, c) == k && c.id == id
  }

  lemma CacheAfter(env: Env, init: seq<Category>, last: Category)
    ensures CacheOf(env.fold, init + [last]) == CacheOf(env.fold, init)[KeyOfCategory(env, last) := last.id]
  {
    hide CacheKey;
    assert (init + [last])[..|init|] == init;
  }

  lemma BacksMore(env: Env, init: seq<Category>, last: Category, k: string, id: Uuid)
    ensures Backs(env, init, k, id) || (k == KeyOfCategory(env, last) && id == last.id) ==>
            Backs(env, init + [last], k, id)
  {
    hide KeyOfCategory;
    if Backs(env, init, k, id) {
      var c :| c in init && KeyOfCategory(env, c) == k && c.id == id;
      assert c in init + [last];
    } else {
      assert last in init + [last];
    }
  }

  /** The cache holds exactly the keys of the categories it was built from, each with the id of one of them. */
  lemma {:induction false} CacheHolds(env: Env, cats: seq<Category>)
    ensures forall c :: c in cats ==> KeyOfCategory(env, c) in CacheOf(env.fold, cats)
    ensures forall k :: k in CacheOf(env.fold, cats) ==> Backs(env, cats, k, CacheOf(env.fold, cats)[k])
  {
    hide CacheKey, KeyOfCategory, Backs;
    if cats != [] {
      var init, last := cats[..|cats| - 1], cats[|cats| - 1];
      CacheHolds(env, init);
      assert cats == init + [last];
      CacheAfter(env, init, last);
      forall k | k in CacheOf(env.fold, cats) ensures Backs(env, cats, k, CacheOf(env.fold, cats)[k]) {
        BacksMore(env, init, last, k, CacheOf(env.fold, cats)[k]);
      }
    }
  }

  /** Importing the same file again, after every creation succeeded, makes no category. */
  lemma SecondImportMakesNone(env: Env, user: Uuid, default: string, categories: seq<Category>, rows: seq<Row>,
                              listed: seq<Category>,
                              data: seq<Fields>, first: nat, steps: nat -> Step, rows': seq<Row>,
                                listed': seq<Category>, steps': nat -> Step)
    requires Lists(listed, categories, user) && forall i :: steps(i).createOk
    requires Lists(listed', ImportRows(env, user, default, Begin(env, categories, rows, listed), data, first,
                                       steps).categories, user)
    ensures var after := ImportRows(env, user, default, Begin(env, categories, rows, listed), data, first,
                                    steps).categories;
            ImportRows(env, user, default, Begin(env, after, rows', listed'), data, first, steps').categories == after
  {
    var begin := Begin(env, categories, rows, listed);
    var end := ImportRows(env, user, default, begin, data, first, steps);
    var again := Begin(env, end.categories, rows', listed');
    OneCategoryPerKey(env, user, default, begin, data, first, steps);
    MadeByUser(env, user, default, begin, data, first, steps);
    WantedIsCached(env, user, default, begin, data, first, steps);
    CachedStays(env, user, begin, end, listed, listed');
    hide *;
    NothingToMake(env, user, default, again, data, first, steps');
  }

  /** What an import adds belongs to its user. */
  lemma {:induction false} MadeByUser(env: Env, user: Uuid, default: string, p: Progress, data: seq<Fields>,
                                      first: nat, steps: nat -> Step)
    ensures var q := ImportRows(env, user, default, p, data, first, steps);
            |p.categories| <= |q.categories| && forall i :: |p.categories| <= i < |q.categories| ==>
              q.categories[i].owner == user
    decreases |data|
  {
    hide ImportRow, ReadRow, Blank, CacheKey;
    if data != [] {
      var last := |data| - 1;
      MadeByUser(env, user, default, p, data[..last], first, steps);
      var before := ImportRows(env, user, default, p, data[..last], first, steps);
      RowChanges(env, user, default, before, data[last], first + last + 1, steps(last));
    }
  }

  /** Every key cached at the end of an import is cached again from the next listing. */
  lemma CachedStays(env: Env, user: Uuid, begin: Progress, end: Progress, listed: seq<Category>, listed': seq<Category>)
    requires AddsCategories(env, begin, end) && begin.cache == CacheOf(env.fold, listed)
             && Lists(listed, begin.categories, user)
    requires |begin.categories| <= |end.categories|
    requires forall i :: |begin.categories| <= i < |end.categories| ==> end.categories[i].owner == user
    requires Lists(listed', end.categories, user)
    ensures forall k :: k in end.cache ==> k in CacheOf(env.fold, listed')
  {
    hide CacheOf, KeyOfCategory, AddsCategories, Lists;
    forall k | k in end.cache ensures k in CacheOf(env.fold, listed') {
      if k in begin.cache {
        OldKeyStays(env, user, begin, end, listed, listed', k);
      } else {
        NewKeyStays(env, user, begin, end, listed', k);
      }
    }
  }

  lemma OldKeyStays(env: Env, user: Uuid, begin: Progress, end: Progress, listed: seq<Category>,
                    listed': seq<Category>, k: string)
    requires AddsCategories(env, begin, end) && k in CacheOf(env.fold, listed)
    requires Lists(listed, begin.categories, user) && Lists(listed', end.categories, user)
    ensures k in CacheOf(env.fold, listed')
  {
    CacheHolds(env, listed);
    CacheHolds(env, listed');
    hide CacheOf, KeyOfCategory;
    var c :| c in listed && KeyOfCategory(env, c) == k;
    assert c in end.categories;
  }

  lemma NewKeyStays(env: Env, user: Uuid, begin: Progress, end: Progress, listed': seq<Category>, k: string)
    requires AddsCategories(env, begin, end) && k in end.cache && k !in begin.cache
    requires |begin.categories| <= |end.categories| && Lists(listed', end.categories, user)
    requires forall i :: |begin.categories| <= i < |end.categories| ==> end.categories[i].owner == user
    ensures k in CacheOf(env.fold, listed')
  {
    CacheHolds(env, listed');
    hide CacheOf, KeyOfCategory;
    var i :| |begin.categories| <= i < |end.categories| && KeyOfCategory(env, end.categories[i]) == k;
    assert end.categories[i] in end.categories;
  }
}
