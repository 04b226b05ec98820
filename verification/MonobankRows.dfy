/** What a row imported from Monobank says: its category, date and currency. */
module MonobankRows {
  import opened Wrappers
  import opened Text
  import opened Orders
  import opened Amounts
  import opened Ledger
  import opened Monobank
  import opened MonobankRuns
  import opened Kinds
  import opened Time

  /** The category name an item is looked up by: its MCC's, or the catch-all for an expense whose MCC has none. */
  predicate LooksFor(env: Env, item: StatementItem, name: string) {
    if env.categoryName(item.mcc) != "" then name == env.categoryName(item.mcc)
    else item.amount < 0 && name == "Інше"
  }

  /** c has the row's type and the name the item is looked up by. */
  predicate Fits(env: Env, item: StatementItem, kind: string, c: Category, name: string) {
    c.kind == kind && LooksFor(env, item, name) && name != "" && env.equalFold(Trim(c.name), name)
  }

  /**
   The row's category is NULL, or one that the attempt's listing held, with the row's own type and the item's name; it
   is not NULL when there was one.
   */
  lemma CategoryFits(env: Env, a: Arrival)
    requires RowOf(env, a).Some?
    ensures var row := RowOf(env, a).value;
            row.category == NIL
            || (a.listed.Some? && exists c, name :: c in a.listed.value && c.id == row.category
                                                    && Fits(env, a.item, row.kind, c, name))
    ensures a.listed.Some? && (forall c :: c in a.listed.value ==> c.id != NIL) ==>
              var row := RowOf(env, a).value;
              row.category != NIL <==>
              exists c, name :: c in a.listed.value && Fits(env, a.item, row.kind, c, name)
  {
    hide StoredCents, MinorUnitsText, FirstMatch, Trim;
    var row, name := RowOf(env, a).value, NameFor(env, a.item);
    if a.listed.Some? {
      MatchFound(env, a.listed.value, name, row.kind);
      if row.category != NIL {
        var c :| c in a.listed.value && Matches(env, c, name, row.kind) && c.id == row.category;
        assert Fits(env, a.item, row.kind, c, name);
      }
      forall c, n | c in a.listed.value && Fits(env, a.item, row.kind, c, n) ensures Matches(env, c, name, row.kind) {}
    }
  }

  /** Every row of a run's table was there before or has a category, if any, of its own type from the run's listings. */
  lemma ImportedCategories(env: Env, rows: seq<Row>, attempts: seq<Arrival>, r: Row)
    requires r in ImportAll(env, rows, attempts) && r !in rows
    ensures exists a :: a in attempts && Inserts(env, a) && RowOf(env, a) == Some(r)
    ensures r.category == NIL
            || exists a, c :: a in attempts && a.user == r.user && a.listed.Some? && c in a.listed.value
                              && c.id == r.category && c.kind == r.kind
  {
    var once, after := Firsts(env, rows, attempts), ImportAll(env, rows, attempts);
    TableExactly(env, rows, attempts);
    FirstsOnceEach(env, rows, attempts);
    var i :| 0 <= i < |after| && after[i] == r;
    NotBefore(rows, after, i, r);
    var a := once[i - |rows|];
    assert a in attempts && Inserts(env, a);
    hide *;
    CategoryOf(env, a, r);
  }

  lemma NotBefore(rows: seq<Row>, after: seq<Row>, i: nat, r: Row)
    requires rows <= after && i < |after| && after[i] == r && r !in rows
    ensures i >= |rows|
  {}

  lemma CategoryOf(env: Env, a: Arrival, r: Row)
    requires RowOf(env, a) == Some(r)
    ensures a.user == r.user
    ensures r.category == NIL
            || (a.listed.Some? && exists c :: c in a.listed.value && c.id == r.category && c.kind == r.kind)
  {
    RowIdentity(env, a);
    CategoryFits(env, a);
    hide RowOf;
  }

  /** A row is dated by the item's time, and its currency is the account's, or the item's while that is unknown. */
  lemma RowSays(env: Env, a: Arrival)
    requires RowOf(env, a).Some?
    ensures var row := RowOf(env, a).value;
            && row.date == a.item.time * 1_000_000_000
            && row.note == a.item.description
            && row.operationAmount == a.item.operationAmount
            && row.operationCurrencyCode == a.item.operationCurrencyCode
            && (row.kind == EXPENSE <==> a.item.amount < 0) && (row.kind == INCOME <==> a.item.amount >= 0)
    ensures a.accountCurrency != "" ==> RowOf(env, a).value.currency == a.accountCurrency
    ensures a.accountCurrency == "" ==>
              var currency := RowOf(env, a).value.currency;
              && (currency == "USD" <==> a.item.currencyCode == 840)
              && (currency == "EUR" <==> a.item.currencyCode == 978)
              && (currency == "GBP" <==> a.item.currencyCode == 826)
              && (currency == "PLN" <==> a.item.currencyCode == 985)
              && (currency == "UAH" <==> a.item.currencyCode !in {840, 978, 826, 985})
  {
    hide StoredCents, MinorUnitsText, CategoryFor;
    assert |INCOME| != |EXPENSE|;
    CurrencyTable(a.item.currencyCode);
    hide CurrencyCode;
  }

  lemma CurrencyTable(code: int)
    ensures CurrencyCode(code) == "USD" <==> code == 840
    ensures CurrencyCode(code) == "EUR" <==> code == 978
    ensures CurrencyCode(code) == "GBP" <==> code == 826
    ensures CurrencyCode(code) == "PLN" <==> code == 985
    ensures CurrencyCode(code) == "UAH" <==> code !in {840, 978, 826, 985}
  {
    assert "USD"[0] == 'U' && "USD"[1] == 'S' && "UAH"[1] == 'A' && "EUR"[0] == 'E' && "GBP"[0] == 'G'
           && "PLN"[0] == 'P';
  }

  /** A webhook's attempt carries the currency stored for the account it names, none if that is not stored. */
  lemma PushedCurrency(user: Uuid, conn: Connection, item: StatementItem, calls: Calls, i: nat)
    requires i < |conn.accountIds| && conn.accountIds[i] !in conn.accountIds[..i]
    ensures Pushed(user, conn, conn.accountIds[i], item, calls).accountCurrency ==
            if i < |conn.accountCurrencies| then conn.accountCurrencies[i] else ""
  {
    var account := conn.accountIds[i];
    var j := IndexOfAccount(conn.accountIds, account);
    assert forall k :: 0 <= k < j ==> conn.accountIds[..j][k] == conn.accountIds[k];
    assert forall k :: 0 <= k < i ==> conn.accountIds[..i][k] == conn.accountIds[k];
  }
}
