/** Sequences of import attempts: exactly-once import, confluence and conservation of money. */
module MonobankRuns {
  import opened Wrappers
  import opened Orders
  import opened Amounts
  import opened Ledger
  import opened Monobank
  import opened Sequences

  // ---- one item ----

  lemma MagnitudeStores(amount: Int64)
    ensures StoredCents(MagnitudeText(amount)) ==
            if -CENTS_LIMIT < amount < CENTS_LIMIT then Some(if amount < 0 then -amount else amount) else None
  {
    if amount == MIN_INT64 {
      OverflowedTextRejected();
    } else {
      var magnitude: nat := if amount < 0 then -amount else amount;
      MinorUnitsTextNat(magnitude);
      AmountTextStores(magnitude);
    }
  }

  /**
   An item has a row exactly when its amount is below 10^14 minor units, and the row carries the exact signed
   amount.
   */
  lemma AmountExact(env: Env, a: Arrival)
    ensures RowOf(env, a).Some? <==> -CENTS_LIMIT < a.item.amount < CENTS_LIMIT
    ensures RowOf(env, a).Some? ==> Signed(RowOf(env, a).value) == a.item.amount && RowOf(env, a).value.cents >= 0
  {
    MagnitudeStores(a.item.amount);
  }

  /** What RowOf copies from the attempt without looking at the amount text. */
  lemma RowIdentity(env: Env, a: Arrival)
    requires RowOf(env, a).Some?
    ensures RowOf(env, a).value.user == a.user && RowOf(env, a).value.externalId == a.item.id
  {}

  /** Delivering one item twice is delivering it once, unless it has no id and was inserted. */
  lemma RedeliveryIdempotentIff(env: Env, rows: seq<Row>, a: Arrival)
    ensures Import(env, Import(env, rows, a), a) == Import(env, rows, a) <==> a.item.id != "" || !Inserts(env, a)
  {
    var once := Import(env, rows, a);
    if Inserts(env, a) {
      RowIdentity(env, a);
      var row := RowOf(env, a).value;
      if a.item.id != "" && !Conflicts(rows, row) { assert once[|rows|] == row; }
      if a.item.id == "" { assert |Import(env, once, a)| == |once| + 1; }
    }
  }

  lemma {:induction false} MatchFound(env: Env, cats: seq<Category>, name: string, kind: string)
    ensures FirstMatch(env, cats, name, kind).Some? <==> exists c :: c in cats && Matches(env, c, name, kind)
    ensures FirstMatch(env, cats, name, kind).Some? ==>
              exists c :: c in cats && Matches(env, c, name, kind) && c.id == FirstMatch(env, cats, name, kind).value
    decreases |cats|
  {
    hide Matches;
    if cats != [] && !Matches(env, cats[0], name, kind) {
      MatchFound(env, cats[1..], name, kind);
      assert cats == [cats[0]] + cats[1..];
    }
  }

  /**
   With a failed listing the row has no category; with a working one it has exactly when a listed category
   matches.
   */
  lemma FailedListingLosesCategory(env: Env, a: Arrival)
    requires Inserts(env, a) && a.listed.Some? && forall c :: c in a.listed.value ==> c.id != NIL
    ensures RowOf(env, a.(listed := None)).value.category == NIL
    ensures RowOf(env, a).value.category != NIL <==>
            NameFor(env, a.item) != "" && exists c :: c in a.listed.value
                                            && Matches(env, c, NameFor(env, a.item), KindOf(a.item.amount))
  {
    hide StoredCents, MinorUnitsText, Matches, FirstMatch, NameFor;
    MatchFound(env, a.listed.value, NameFor(env, a.item), KindOf(a.item.amount));
  }

  // ---- sequences of attempts ----

  /** Attempts that get through for the same user and id would store the same row. */
  predicate Agree(env: Env, attempts: seq<Arrival>) {
    && (forall a :: a in attempts ==> a.item.id != "")
    && (forall a, b :: a in attempts && b in attempts && a.user == b.user && a.item.id == b.item.id
                       && Inserts(env, a) && Inserts(env, b)
                       ==> RowOf(env, a) == RowOf(env, b))
  }

  /** r is the row of an item that was delivered without error at least once. */
  ghost predicate Delivered(env: Env, attempts: seq<Arrival>, r: Row) {
    exists a :: a in attempts && Inserts(env, a) && RowOf(env, a).value == r
  }

  ghost predicate SameDeliveries(env: Env, first: seq<Arrival>, second: seq<Arrival>) {
    forall r :: Delivered(env, first, r) <==> Delivered(env, second, r)
  }

  lemma {:induction false} ImportKeepsUnique(env: Env, rows: seq<Row>, attempts: seq<Arrival>)
    requires UniqueIds(rows)
    ensures UniqueIds(ImportAll(env, rows, attempts))
    ensures rows <= ImportAll(env, rows, attempts)
  {
    if attempts != [] {
      var init := attempts[..|attempts| - 1];
      ImportKeepsUnique(env, rows, init);
      var last := attempts[|attempts| - 1];
      if Inserts(env, last) { InsertKeepsUnique(ImportAll(env, rows, init), RowOf(env, last).value); }
    }
  }

  lemma AgreePart(env: Env, part: seq<Arrival>, attempts: seq<Arrival>)
    requires Agree(env, attempts) && forall a :: a in part ==> a in attempts
    ensures Agree(env, part)
  {
    hide Inserts, RowOf;
  }

  /** A row conflicting with one delivered for the same item is that very row. */
  lemma SameItemSameRow(env: Env, attempts: seq<Arrival>, a: Arrival, r: Row)
    requires Agree(env, attempts) && a in attempts && Inserts(env, a) && Delivered(env, attempts, r)
    requires r.user == a.user && r.externalId == a.item.id
    ensures r == RowOf(env, a).value
  {
    var b :| b in attempts && Inserts(env, b) && RowOf(env, b).value == r;
    RowIdentity(env, b);
  }

  lemma InTableConflicts(rows: seq<Row>, r: Row, row: Row)
    requires r in rows && r.user == row.user && r.externalId == row.externalId != ""
    ensures Conflicts(rows, row)
  {
    var k :| 0 <= k < |rows| && rows[k] == r;
  }

  /** When an item's id is taken, but was not before the run, its own row is what took it. */
  lemma ConflictIsItself(env: Env, rows: seq<Row>, before: seq<Row>, attempts: seq<Arrival>, a: Arrival)
    requires Agree(env, attempts) && a in attempts && Inserts(env, a)
    requires forall r :: r in before ==> r in rows || Delivered(env, attempts, r)
    requires Conflicts(before, RowOf(env, a).value) && !Conflicts(rows, RowOf(env, a).value)
    ensures RowOf(env, a).value in before
  {
    var row := RowOf(env, a).value;
    RowIdentity(env, a);
    var i :| 0 <= i < |before| && before[i].user == row.user && before[i].externalId == row.externalId;
    var r := before[i];
    assert r in before;
    if r in rows { InTableConflicts(rows, r, row); } else { SameItemSameRow(env, attempts, a, r); }
  }

  /** One more attempt adds its row, if that is not there, exactly when its id was free before the run. */
  lemma LastInTable(env: Env, rows: seq<Row>, before: seq<Row>, attempts: seq<Arrival>, last: Arrival)
    requires Agree(env, attempts) && last in attempts && rows <= before
    requires forall r :: r in before ==> r in rows || Delivered(env, attempts, r)
    ensures before <= Import(env, before, last)
    ensures forall r :: r in Import(env, before, last) <==>
            r in before || (Inserts(env, last) && r == RowOf(env, last).value && !Conflicts(rows, r))
  {
    hide Agree, Delivered, RowOf;
    if Inserts(env, last) {
      var row := RowOf(env, last).value;
      if Conflicts(rows, row) { ConflictsMore(rows, before, row); }
      else if Conflicts(before, row) { ConflictIsItself(env, rows, before, attempts, last); }
    }
    hide Conflicts;
  }

  lemma ConflictsMore(rows: seq<Row>, before: seq<Row>, row: Row)
    requires rows <= before && Conflicts(rows, row)
    ensures Conflicts(before, row)
  {
    var i :| 0 <= i < |rows| && rows[i].user == row.user && rows[i].externalId == row.externalId;
    assert before[i] == rows[i];
  }

  /** The table after any attempts: what was there, plus each delivered row whose id was not there. */
  lemma {:induction false} TableAfter(env: Env, rows: seq<Row>, attempts: seq<Arrival>)
    requires Agree(env, attempts)
    ensures forall r :: r in ImportAll(env, rows, attempts) <==>
            r in rows || (Delivered(env, attempts, r) && !Conflicts(rows, r))
    ensures rows <= ImportAll(env, rows, attempts)
  {
    hide Agree, Delivered, Conflicts, Import, RowOf, Inserts;
    if attempts == [] {
      NothingDelivered(env, attempts);
    } else {
      var init, last := attempts[..|attempts| - 1], attempts[|attempts| - 1];
      AgreePart(env, init, attempts);
      TableAfter(env, rows, init);
      assert attempts == init + [last];
      DeliveredStep(env, init, last);
      LastInTable(env, rows, ImportAll(env, rows, init), attempts, last);
    }
  }

  lemma NothingDelivered(env: Env, none: seq<Arrival>)
    requires none == []
    ensures forall r :: !Delivered(env, none, r)
  {}

  lemma DeliveredStep(env: Env, init: seq<Arrival>, last: Arrival)
    ensures forall r :: Delivered(env, init + [last], r) <==>
            Delivered(env, init, r) || (Inserts(env, last) && RowOf(env, last).value == r)
  {
    assert forall a :: a in init + [last] <==> a in init || a == last;
  }

  /** Two lists without repetition that hold the same rows are the same multiset. */
  lemma {:induction false} DistinctMultiset(a: seq<Row>, b: seq<Row>)
    requires Distinct(a) && Distinct(b) && forall r :: r in a <==> r in b
    ensures multiset(a) == multiset(b)
  {
    forall r ensures multiset(a)[r] == multiset(b)[r] {
      DistinctCounts(a, r);
      DistinctCounts(b, r);
    }
  }

  lemma {:induction false} DistinctCounts(a: seq<Row>, r: Row)
    requires Distinct(a)
    ensures multiset(a)[r] == if r in a then 1 else 0
  {
    if a != [] {
      DistinctCounts(a[..|a| - 1], r);
      assert a == a[..|a| - 1] + [a[|a| - 1]];
    }
  }

  lemma NewRow(env: Env, rows: seq<Row>, attempts: seq<Arrival>, k: nat)
    requires UniqueIds(rows) && Agree(env, attempts)
    requires |rows| <= k < |ImportAll(env, rows, attempts)|
    ensures var r := ImportAll(env, rows, attempts)[k];
            r.externalId != "" && Delivered(env, attempts, r) && !Conflicts(rows, r)
  {
    ImportKeepsUnique(env, rows, attempts);
    TableAfter(env, rows, attempts);
    AddedHasId(env, rows, attempts, k);
    var after := ImportAll(env, rows, attempts);
    forall i | 0 <= i < |rows| ensures !(rows[i].user == after[k].user && rows[i].externalId == after[k].externalId) {
      assert after[i] == rows[i];
    }
    assert after[k] in after && after[k] !in rows;
  }

  lemma NewRows(env: Env, rows: seq<Row>, attempts: seq<Arrival>)
    requires UniqueIds(rows) && Agree(env, attempts)
    ensures rows <= ImportAll(env, rows, attempts)
    ensures Distinct(ImportAll(env, rows, attempts)[|rows|..])
    ensures forall r :: r in ImportAll(env, rows, attempts)[|rows|..] <==>
            Delivered(env, attempts, r) && !Conflicts(rows, r)
  {
    ImportKeepsUnique(env, rows, attempts);
    var after := ImportAll(env, rows, attempts);
    forall k | |rows| <= k < |after|
      ensures after[k].externalId != "" && Delivered(env, attempts, after[k]) && !Conflicts(rows, after[k])
    {
      NewRow(env, rows, attempts, k);
    }
    AddedDistinct(after, |rows|);
    forall r | Delivered(env, attempts, r) && !Conflicts(rows, r) ensures r in after[|rows|..] {
      DeliveredIsAdded(env, rows, attempts, r);
    }
  }

  lemma DeliveredIsAdded(env: Env, rows: seq<Row>, attempts: seq<Arrival>, r: Row)
    requires Agree(env, attempts) && Delivered(env, attempts, r) && !Conflicts(rows, r)
    ensures rows <= ImportAll(env, rows, attempts) && r in ImportAll(env, rows, attempts)[|rows|..]
  {
    hide Agree, Delivered, Conflicts, ImportAll;
    TableAfter(env, rows, attempts);
    DeliveredNotThere(env, rows, attempts, r);
    var after := ImportAll(env, rows, attempts);
    assert after == rows + after[|rows|..];
  }

  lemma AddedDistinct(after: seq<Row>, n: nat)
    requires n <= |after| && UniqueIds(after) && forall k :: n <= k < |after| ==> after[k].externalId != ""
    ensures Distinct(after[n..])
  {}

  lemma DeliveredNotThere(env: Env, rows: seq<Row>, attempts: seq<Arrival>, r: Row)
    requires Agree(env, attempts) && Delivered(env, attempts, r) && !Conflicts(rows, r)
    ensures r !in rows
  {
    var a :| a in attempts && Inserts(env, a) && RowOf(env, a).value == r;
    RowIdentity(env, a);
  }

  /** Every added row has a non-empty id. */
  lemma {:induction false} AddedHasId(env: Env, rows: seq<Row>, attempts: seq<Arrival>, k: nat)
    requires Agree(env, attempts) && |rows| <= k < |ImportAll(env, rows, attempts)|
    ensures ImportAll(env, rows, attempts)[k].externalId != ""
  {
    if attempts != [] {
      var init, last := attempts[..|attempts| - 1], attempts[|attempts| - 1];
      AgreePart(env, init, attempts);
      IdOfLast(env, ImportAll(env, rows, init), last, k);
      hide Import, Agree;
      if k < |ImportAll(env, rows, init)| { AddedHasId(env, rows, init, k); }
    }
  }

  lemma IdOfLast(env: Env, rows: seq<Row>, a: Arrival, k: nat)
    requires a.item.id != "" && k < |Import(env, rows, a)|
    ensures if k < |rows| then Import(env, rows, a)[k] == rows[k] else Import(env, rows, a)[k].externalId != ""
  {
    if Inserts(env, a) { RowIdentity(env, a); }
    hide RowOf;
  }

  /**
   Confluence: two sequences of attempts that between them deliver the same items end with the same rows,
   however deliveries repeat, interleave or fail on the way.
   */
  lemma Confluence(env: Env, rows: seq<Row>, first: seq<Arrival>, second: seq<Arrival>)
    requires UniqueIds(rows) && Agree(env, first) && Agree(env, second)
    requires SameDeliveries(env, first, second)
    ensures multiset(ImportAll(env, rows, first)) == multiset(ImportAll(env, rows, second))
    ensures |ImportAll(env, rows, first)| == |ImportAll(env, rows, second)|
  {
    hide Agree, UniqueIds, Delivered, Conflicts, ImportAll, Distinct;
    NewRows(env, rows, first);
    NewRows(env, rows, second);
    var a, b := ImportAll(env, rows, first), ImportAll(env, rows, second);
    DistinctMultiset(a[|rows|..], b[|rows|..]);
    SameSuffix(rows, a, b);
  }

  lemma SameSuffix(rows: seq<Row>, a: seq<Row>, b: seq<Row>)
    requires rows <= a && rows <= b && multiset(a[|rows|..]) == multiset(b[|rows|..])
    ensures multiset(a) == multiset(b) && |a| == |b|
  {
    assert a == rows + a[|rows|..] && b == rows + b[|rows|..];
    assert |multiset(a)| == |a| && |multiset(b)| == |b|;
  }

  lemma {:induction false} ImportAllSplit(env: Env, rows: seq<Row>, a: seq<Arrival>, b: seq<Arrival>)
    ensures ImportAll(env, rows, a + b) == ImportAll(env, ImportAll(env, rows, a), b)
    decreases |b|
  {
    hide Import;
    if b == [] {
      assert a + b == a;
    } else {
      ImportAllSplit(env, rows, a, b[..|b| - 1]);
      assert (a + b)[..|a + b| - 1] == a + b[..|b| - 1];
    }
  }

  /** `part` tries the items of a prefix of `whole`, whose inserts all succeed; the listings may differ. */
  predicate RetriedBy(part: seq<Arrival>, whole: seq<Arrival>) {
    |part| <= |whole| && forall i :: 0 <= i < |part| ==> whole[i] == part[i].(listed := whole[i].listed, dbOk := true)
  }

  lemma RetryInserts(env: Env, a: Arrival, b: Arrival)
    requires Inserts(env, a) && b == a.(listed := b.listed, dbOk := true)
    ensures Inserts(env, b)
  {
    AmountExact(env, a);
    AmountExact(env, b);
  }

  lemma DeliversTwice(env: Env, part: seq<Arrival>, whole: seq<Arrival>)
    requires RetriedBy(part, whole) && Agree(env, part + whole)
    ensures SameDeliveries(env, part + whole, whole)
  {
    var both := part + whole;
    forall a | a in part && Inserts(env, a) ensures Delivered(env, whole, RowOf(env, a).value) {
      var i :| 0 <= i < |part| && part[i] == a;
      RetryInserts(env, a, whole[i]);
      assert both[i] == a && both[|part| + i] == whole[i];
      assert whole[i] in whole;
    }
    assert forall a :: a in both <==> a in part || a in whole;
  }

  /**
   A sync that stopped at an error and is then repeated without error leaves what one clean sync leaves, whatever each
   of the two lists for each item, as long as both find the same categories.
   */
  lemma RetriedSync(env: Env, rows: seq<Row>, user: Uuid, conn: Connection, items: seq<StatementItem>,
                    calls: seq<Calls>, retried: seq<Calls>)
    requires UniqueIds(rows) && |calls| == |items| == |retried|
    requires Agree(env, Statement(user, conn, items, calls) + Statement(user, conn, items, retried))
    requires forall i :: 0 <= i < |retried| ==> retried[i].insertOk
    ensures var stopped := UntilFailure(env, Statement(user, conn, items, calls));
            multiset(ImportAll(env, ImportAll(env, rows, stopped), Statement(user, conn, items, retried)))
            == multiset(ImportAll(env, rows, Statement(user, conn, items, retried)))
  {
    var stopped := UntilFailure(env, Statement(user, conn, items, calls));
    var clean := Statement(user, conn, items, retried);
    assert RetriedBy(stopped, clean) && stopped <= Statement(user, conn, items, calls);
    hide *;
    AgreePart(env, stopped + clean, Statement(user, conn, items, calls) + clean);
    AgreePart(env, clean, Statement(user, conn, items, calls) + clean);
    DeliversTwice(env, stopped, clean);
    Confluence(env, rows, stopped + clean, clean);
    ImportAllSplit(env, rows, stopped, clean);
  }

  /** The webhook and SyncNow make the same attempt for an item of the first tracked account. */
  lemma WebhookAgreesWithSync(user: Uuid, conn: Connection, items: seq<StatementItem>, calls: seq<Calls>, i: nat)
    requires conn.accountIds != [] && |calls| == |items| && i < |items|
    ensures Pushed(user, conn, conn.accountIds[0], items[i], calls[i]) == Statement(user, conn, items, calls)[i]
  {}

  /** A row stored without its category keeps that, and stays the item's only row, through every later attempt. */
  lemma CategoryLostForGood(env: Env, rows: seq<Row>, a: Arrival, later: seq<Arrival>)
    requires UniqueIds(rows) && Inserts(env, a) && a.listed.None? && a.item.id != ""
    requires !Conflicts(rows, RowOf(env, a).value)
    ensures var row, after := RowOf(env, a).value, ImportAll(env, Import(env, rows, a), later);
            && row.category == NIL && row in after
            && forall r :: r in after && r.user == a.user && r.externalId == a.item.id ==> r == row
  {
    RowIdentity(env, a);
    NoListingNoCategory(env, a);
    var row, stored := RowOf(env, a).value, Import(env, rows, a);
    assert stored == rows + [row] && stored[|rows|] == row;
    InsertKeepsUnique(rows, row);
    ImportKeepsUnique(env, stored, later);
    var after := ImportAll(env, stored, later);
    hide ImportAll, Import, RowOf;
    assert after[|rows|] == stored[|rows|];
  }

  lemma NoListingNoCategory(env: Env, a: Arrival)
    requires RowOf(env, a).Some? && a.listed.None?
    ensures RowOf(env, a).value.category == NIL
  {
    hide StoredCents, MinorUnitsText, NameFor;
  }

  // ---- money ----

  function SumAmounts(attempts: seq<Arrival>): int {
    if attempts == [] then 0 else SumAmounts(attempts[..|attempts| - 1]) + attempts[|attempts| - 1].item.amount
  }

  lemma SumAmountsAfter(attempts: seq<Arrival>, a: Arrival)
    ensures SumAmounts(attempts + [a]) == SumAmounts(attempts) + a.item.amount
  {
    assert (attempts + [a])[..|attempts|] == attempts;
  }

  lemma BalanceAfter(rows: seq<Row>, row: Row)
    ensures Balance(rows + [row]) == Balance(rows) + Signed(row)
  {
    assert (rows + [row])[..|rows|] == rows;
  }

  /** The attempt adds its row to this table. */
  predicate Adds(env: Env, rows: seq<Row>, a: Arrival) { Inserts(env, a) && !Conflicts(rows, RowOf(env, a).value) }

  /** The attempts of a run that added their row: of each item the first one to get through. */
  function Firsts(env: Env, rows: seq<Row>, attempts: seq<Arrival>): seq<Arrival> {
    if attempts == [] then []
    else
      var init, last := attempts[..|attempts| - 1], attempts[|attempts| - 1];
      if Adds(env, ImportAll(env, rows, init), last) then Firsts(env, rows, init) + [last] else Firsts(env, rows, init)
  }

  lemma ImportAfter(env: Env, rows: seq<Row>, attempts: seq<Arrival>, a: Arrival)
    ensures ImportAll(env, rows, attempts + [a]) == Import(env, ImportAll(env, rows, attempts), a)
  {
    assert (attempts + [a])[..|attempts|] == attempts;
  }

  /** A run, with whatever repetitions and failures, is importing each of its first attempts once. */
  lemma {:induction false} RunImportsFirsts(env: Env, rows: seq<Row>, attempts: seq<Arrival>)
    ensures ImportAll(env, rows, attempts) == ImportAll(env, rows, Firsts(env, rows, attempts))
  {
    hide Import, Adds;
    if attempts != [] {
      var init, last := attempts[..|attempts| - 1], attempts[|attempts| - 1];
      RunImportsFirsts(env, rows, init);
      ImportAfter(env, rows, Firsts(env, rows, init), last);
      ImportAdds(env, ImportAll(env, rows, init), last);
    }
  }

  lemma ImportAdds(env: Env, rows: seq<Row>, a: Arrival)
    ensures !Adds(env, rows, a) ==> Import(env, rows, a) == rows
    ensures Adds(env, rows, a) ==> Import(env, rows, a) == rows + [RowOf(env, a).value]
  {}

  /** The table after any run: what was there, then the rows of the first attempts, in order. */
  lemma {:induction false} TableExactly(env: Env, rows: seq<Row>, attempts: seq<Arrival>)
    ensures var after, once := ImportAll(env, rows, attempts), Firsts(env, rows, attempts);
            && rows <= after && |after| == |rows| + |once|
            && forall i :: 0 <= i < |once| ==> RowOf(env, once[i]) == Some(after[|rows| + i])
  {
    hide Import, RowOf, Adds;
    if attempts != [] {
      var init, last := attempts[..|attempts| - 1], attempts[|attempts| - 1];
      TableExactly(env, rows, init);
      ImportAdds(env, ImportAll(env, rows, init), last);
      if Adds(env, ImportAll(env, rows, init), last) { AddsInserts(env, ImportAll(env, rows, init), last); }
    }
  }

  /**
   Conservation, for every table and every run: income minus expense grows by exactly the sum of the
   signed amounts of the first attempts, and the table by their number.
   */
  lemma {:induction false} MoneyConserved(env: Env, rows: seq<Row>, attempts: seq<Arrival>)
    ensures Balance(ImportAll(env, rows, attempts)) == Balance(rows) + SumAmounts(Firsts(env, rows, attempts))
    ensures |ImportAll(env, rows, attempts)| == |rows| + |Firsts(env, rows, attempts)|
  {
    hide Import, RowOf, Signed, Balance, Adds;
    if attempts != [] {
      var init, last := attempts[..|attempts| - 1], attempts[|attempts| - 1];
      MoneyConserved(env, rows, init);
      AddsMoney(env, ImportAll(env, rows, init), last);
      SumAmountsAfter(Firsts(env, rows, init), last);
    }
  }

  lemma AddsMoney(env: Env, rows: seq<Row>, a: Arrival)
    ensures Balance(Import(env, rows, a)) == Balance(rows) + if Adds(env, rows, a) then a.item.amount else 0
    ensures |Import(env, rows, a)| == |rows| + if Adds(env, rows, a) then 1 else 0
  {
    ImportAdds(env, rows, a);
    AmountExact(env, a);
    if Adds(env, rows, a) { BalanceAfter(rows, RowOf(env, a).value); }
    hide Import, RowOf, Signed, Balance;
  }

  /** Some row of the table has this user and id. */
  predicate Taken(rows: seq<Row>, user: Uuid, id: string) {
    exists i :: 0 <= i < |rows| && rows[i].user == user && rows[i].externalId == id
  }

  /** One of these attempts, at an item with this user and id, was not refused by the database or the amount. */
  predicate Tried(env: Env, attempts: seq<Arrival>, user: Uuid, id: string) {
    exists i :: 0 <= i < |attempts| && Inserts(env, attempts[i]) && attempts[i].user == user
      && attempts[i].item.id == id
  }

  predicate Mentions(attempts: seq<Arrival>, user: Uuid, id: string) {
    exists i :: 0 <= i < |attempts| && attempts[i].user == user && attempts[i].item.id == id
  }

  lemma TriedAfter(env: Env, init: seq<Arrival>, last: Arrival, user: Uuid, id: string)
    ensures Tried(env, init + [last], user, id) <==>
            Tried(env, init, user, id) || (Inserts(env, last) && last.user == user && last.item.id == id)
  {
    hide Inserts;
    var all := init + [last];
    assert all[|init|] == last && forall i :: 0 <= i < |init| ==> all[i] == init[i];
  }

  lemma MentionsAfter(init: seq<Arrival>, last: Arrival, user: Uuid, id: string)
    ensures Mentions(init + [last], user, id) <==> Mentions(init, user, id) || (last.user == user && last.item.id == id)
  {
    var all := init + [last];
    assert all[|init|] == last && forall i :: 0 <= i < |init| ==> all[i] == init[i];
  }

  lemma TakenAfter(env: Env, rows: seq<Row>, a: Arrival, user: Uuid, id: string)
    requires id != ""
    ensures Taken(Import(env, rows, a), user, id) <==>
            Taken(rows, user, id) || (Inserts(env, a) && a.user == user && a.item.id == id)
  {
    ImportAdds(env, rows, a);
    if Inserts(env, a) { RowIdentity(env, a); }
    hide Import, RowOf;
    if Adds(env, rows, a) {
      var after := rows + [RowOf(env, a).value];
      assert after[|rows|] == RowOf(env, a).value && forall i :: 0 <= i < |rows| ==> after[i] == rows[i];
    }
  }

  /** After a run an id is taken exactly when it was before or some attempt at it got through. */
  lemma {:induction false} TakenAtEnd(env: Env, rows: seq<Row>, attempts: seq<Arrival>, user: Uuid, id: string)
    requires id != ""
    ensures Taken(ImportAll(env, rows, attempts), user, id) <==> Taken(rows, user, id) || Tried(env, attempts, user, id)
  {
    hide Import, Taken, Tried, Inserts;
    if attempts == [] {
      NobodyTried(env, attempts, user, id);
    } else {
      var init, last := attempts[..|attempts| - 1], attempts[|attempts| - 1];
      assert attempts == init + [last];
      TakenAtEnd(env, rows, init, user, id);
      TakenAfter(env, ImportAll(env, rows, init), last, user, id);
      TriedAfter(env, init, last, user, id);
    }
  }

  lemma NobodyTried(env: Env, none: seq<Arrival>, user: Uuid, id: string)
    requires none == []
    ensures !Tried(env, none, user, id) && !Mentions(none, user, id)
  {}

  lemma AddsFreeId(env: Env, rows: seq<Row>, a: Arrival, user: Uuid, id: string)
    requires a.user == user && a.item.id == id != ""
    ensures Adds(env, rows, a) <==> Inserts(env, a) && !Taken(rows, user, id)
  {
    if Inserts(env, a) { RowIdentity(env, a); }
  }

  /** An item with an id is among the first attempts exactly when its id was free and some attempt at it got through. */
  lemma {:induction false} ItemAmongFirsts(env: Env, rows: seq<Row>, attempts: seq<Arrival>, user: Uuid, id: string)
    requires id != ""
    ensures Mentions(Firsts(env, rows, attempts), user, id) <==>
            !Taken(rows, user, id) && Tried(env, attempts, user, id)
  {
    hide Import, Taken, Tried, Inserts, Adds, Mentions, ImportAll;
    if attempts == [] {
      NobodyTried(env, attempts, user, id);
    } else {
      var init, last := attempts[..|attempts| - 1], attempts[|attempts| - 1];
      assert attempts == init + [last];
      ItemAmongFirsts(env, rows, init, user, id);
      TriedAfter(env, init, last, user, id);
      MentionsAfter(Firsts(env, rows, init), last, user, id);
      TakenAtEnd(env, rows, init, user, id);
      if last.user == user && last.item.id == id { AddsFreeId(env, ImportAll(env, rows, init), last, user, id); }
    }
  }

  /** No two first attempts are at the same item. */
  predicate DistinctIds(attempts: seq<Arrival>) {
    forall i, j :: 0 <= i < j < |attempts| ==>
      !(attempts[i].user == attempts[j].user && attempts[i].item.id == attempts[j].item.id != "")
  }

  lemma DistinctAfter(init: seq<Arrival>, last: Arrival)
    requires DistinctIds(init) && (last.item.id != "" ==> !Mentions(init, last.user, last.item.id))
    ensures DistinctIds(init + [last])
  {}

  /** The first attempts all insert, no two of them at the same item. */
  lemma {:induction false} FirstsOnceEach(env: Env, rows: seq<Row>, attempts: seq<Arrival>)
    ensures DistinctIds(Firsts(env, rows, attempts))
    ensures forall a :: a in Firsts(env, rows, attempts) ==> a in attempts && Inserts(env, a)
  {
    hide DistinctIds, Inserts, Adds, Mentions, ImportAll, Taken, Tried;
    if attempts == [] {
      DistinctNone(attempts);
    } else {
      var init, last := attempts[..|attempts| - 1], attempts[|attempts| - 1];
      assert attempts == init + [last];
      FirstsOnceEach(env, rows, init);
      if Adds(env, ImportAll(env, rows, init), last) {
        AddsInserts(env, ImportAll(env, rows, init), last);
        if last.item.id != "" {
          AddsFreeId(env, ImportAll(env, rows, init), last, last.user, last.item.id);
          TakenAtEnd(env, rows, init, last.user, last.item.id);
          ItemAmongFirsts(env, rows, init, last.user, last.item.id);
        }
        DistinctAfter(Firsts(env, rows, init), last);
      }
    }
  }

  lemma AddsInserts(env: Env, rows: seq<Row>, a: Arrival)
    ensures Adds(env, rows, a) ==> Inserts(env, a) && RowOf(env, a).Some?
  {}

  lemma DistinctNone(none: seq<Arrival>)
    requires none == []
    ensures DistinctIds(none)
  {}

  /** The k-th attempt gets through, at an item without id or at one whose id is free and that none before it got to. */
  predicate Earliest(env: Env, rows: seq<Row>, attempts: seq<Arrival>, k: nat)
    requires k < |attempts|
  {
    var a := attempts[k];
    && Inserts(env, a)
    && (a.item.id != "" ==> !Taken(rows, a.user, a.item.id) && !Tried(env, attempts[..k], a.user, a.item.id))
  }

  lemma AddsIffEarliest(env: Env, rows: seq<Row>, attempts: seq<Arrival>, k: nat)
    requires k < |attempts|
    ensures Adds(env, ImportAll(env, rows, attempts[..k]), attempts[k]) <==> Earliest(env, rows, attempts, k)
  {
    var a, before := attempts[k], ImportAll(env, rows, attempts[..k]);
    hide Inserts, Taken, Tried, ImportAll, Adds;
    if a.item.id != "" {
      AddsFreeId(env, before, a, a.user, a.item.id);
      TakenAtEnd(env, rows, attempts[..k], a.user, a.item.id);
    } else {
      AddsWithoutId(env, before, a);
    }
  }

  lemma AddsWithoutId(env: Env, rows: seq<Row>, a: Arrival)
    requires a.item.id == ""
    ensures Adds(env, rows, a) <==> Inserts(env, a)
  {
    if Inserts(env, a) { RowIdentity(env, a); }
  }

  /** The first attempts are exactly the earliest to get through, of each item whose id was free. */
  lemma {:induction false} FirstsExactly(env: Env, rows: seq<Row>, attempts: seq<Arrival>, a: Arrival)
    ensures a in Firsts(env, rows, attempts) <==>
            exists k :: 0 <= k < |attempts| && attempts[k] == a && Earliest(env, rows, attempts, k)
    decreases |attempts|
  {
    hide Earliest, ImportAll, Adds;
    if attempts != [] {
      var init, last := attempts[..|attempts| - 1], |attempts| - 1;
      FirstsExactly(env, rows, init, a);
      AddsIffEarliest(env, rows, attempts, last);
      forall k | 0 <= k < last
        ensures init[k] == attempts[k] && (Earliest(env, rows, init, k) <==> Earliest(env, rows, attempts, k))
      {
        EarliestPrefix(env, rows, attempts, last, k);
      }
    }
  }

  lemma EarliestPrefix(env: Env, rows: seq<Row>, attempts: seq<Arrival>, n: nat, k: nat)
    requires k < n <= |attempts|
    ensures Earliest(env, rows, attempts[..n], k) == Earliest(env, rows, attempts, k)
  {
    assert attempts[..n][..k] == attempts[..k];
    hide Inserts, Taken, Tried;
  }

  // ---- whole webhook deliveries and syncs ----

  /** One webhook delivery or one SyncNow, and what the database does for each item. */
  datatype Event =
    | Webhook(user: Uuid, conn: Connection, account: string, item: StatementItem, call: Calls)
    | Sync(user: Uuid, conn: Connection, items: seq<StatementItem>, calls: seq<Calls>)

  /** What an event tries to insert: a sync stops at its first failure, a webhook ignores untracked accounts. */
  function Attempts(env: Env, e: Event): seq<Arrival> {
    match e
    case Webhook(user, conn, account, item, call) =>
      if account in conn.accountIds then [Pushed(user, conn, account, item, call)] else []
    case Sync(user, conn, items, calls) =>
      if conn.accountIds == [] || |calls| != |items| then []
      else UntilFailure(env, Statement(user, conn, items, calls))
  }

  function Happen(env: Env, rows: seq<Row>, es: seq<Event>): seq<Row> {
    if es == [] then rows else ImportAll(env, Happen(env, rows, es[..|es| - 1]), Attempts(env, es[|es| - 1]))
  }

  function AllAttempts(env: Env, es: seq<Event>): seq<Arrival> {
    if es == [] then [] else AllAttempts(env, es[..|es| - 1]) + Attempts(env, es[|es| - 1])
  }

  lemma {:induction false} HappenIsImportAll(env: Env, rows: seq<Row>, es: seq<Event>)
    ensures Happen(env, rows, es) == ImportAll(env, rows, AllAttempts(env, es))
  {
    hide Attempts;
    if es != [] {
      HappenIsImportAll(env, rows, es[..|es| - 1]);
      ImportAllSplit(env, rows, AllAttempts(env, es[..|es| - 1]), Attempts(env, es[|es| - 1]));
    }
  }

  /**
   Any interleaving and repetition of webhook deliveries and syncs, stopped ones included, on any table: it
   ends with the earliest attempt to get through for each item imported once, and the balance grows by the sum of
   their amounts.
   */
  lemma EventsConverge(env: Env, rows: seq<Row>, es: seq<Event>)
    ensures var once := Firsts(env, rows, AllAttempts(env, es));
            && Happen(env, rows, es) == ImportAll(env, rows, once)
            && |Happen(env, rows, es)| == |rows| + |once|
            && Balance(Happen(env, rows, es)) == Balance(rows) + SumAmounts(once)
            && DistinctIds(once)
            && forall a :: a in once <==>
                 exists k :: 0 <= k < |AllAttempts(env, es)| && AllAttempts(env, es)[k] == a
                             && Earliest(env, rows, AllAttempts(env, es), k)
  {
    hide *;
    forall a {
      FirstsExactly(env, rows, AllAttempts(env, es), a);
    }
    HappenIsImportAll(env, rows, es);
    RunImportsFirsts(env, rows, AllAttempts(env, es));
    MoneyConserved(env, rows, AllAttempts(env, es));
    FirstsOnceEach(env, rows, AllAttempts(env, es));
  }

  /** Two such runs that deliver the same items for the same accounts and categories end with the same rows. */
  lemma EventsConfluent(env: Env, rows: seq<Row>, first: seq<Event>, second: seq<Event>)
    requires UniqueIds(rows) && Agree(env, AllAttempts(env, first)) && Agree(env, AllAttempts(env, second))
    requires SameDeliveries(env, AllAttempts(env, first), AllAttempts(env, second))
    ensures multiset(Happen(env, rows, first)) == multiset(Happen(env, rows, second))
  {
    hide *;
    HappenIsImportAll(env, rows, first);
    HappenIsImportAll(env, rows, second);
    Confluence(env, rows, AllAttempts(env, first), AllAttempts(env, second));
  }
}
