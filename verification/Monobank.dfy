/** Importing Monobank statement items: internal/monobankimport, SyncNow and the webhook. */
module Monobank {
  import opened Wrappers
  import opened Text
  import opened Orders
  import opened Amounts
  import opened Ledger
  import opened Time
  import opened Kinds

  datatype StatementItem = StatementItem(
    id: string, time: int, description: string, mcc: int, amount: Int64, currencyCode: int,
    operationAmount: int, operationCurrencyCode: int)

  datatype Category = Category(id: Uuid, name: string, kind: string)

  /** Lookup tables and library comparisons the importer is given. */
  datatype Env = Env(categoryName: int -> string, equalFold: (string, string) -> bool)

  const OTHER := "Інше"

  /** monobank.CurrencyCode */
  function CurrencyCode(iso: int): string {
    if iso == 980 then "UAH" else if iso == 840 then "USD" else if iso == 978 then "EUR"
    else if iso == 826 then "GBP" else if iso == 985 then "PLN" else "UAH"
  }

  predicate Matches(env: Env, c: Category, name: string, kind: string) {
    env.equalFold(Trim(c.name), name) && c.kind == kind
  }

  /** findCategory: the first listed category that matches; a listing that failed (None) matches nothing. */
  function FoundCategory(env: Env, listed: Option<seq<Category>>, name: string, kind: string): Option<Uuid> {
    if listed.None? then None else FirstMatch(env, listed.value, name, kind)
  }

  function FirstMatch(env: Env, cats: seq<Category>, name: string, kind: string): Option<Uuid> {
    if cats == [] then None
    else if Matches(env, cats[0], name, kind) then Some(cats[0].id)
    else FirstMatch(env, cats[1..], name, kind)
  }

  function KindOf(amount: Int64): string { if amount < 0 then EXPENSE else INCOME }

  /** The category name looked for: the MCC's, or the catch-all for an expense without one. */
  function NameFor(env: Env, item: StatementItem): string {
    if env.categoryName(item.mcc) == "" && KindOf(item.amount) == EXPENSE then OTHER else env.categoryName(item.mcc)
  }

  function CategoryFor(env: Env, item: StatementItem, listed: Option<seq<Category>>): Uuid {
    if NameFor(env, item) == "" then NIL
    else match FoundCategory(env, listed, NameFor(env, item), KindOf(item.amount)) case Some(id) => id case None => NIL
  }

  function MagnitudeText(amount: Int64): string { MinorUnitsText(if amount < 0 then Negate(amount) else amount) }

  /** The row an item becomes; None when its amount text does not scan or does not fit the column. */
  function ItemRow(env: Env, user: Uuid, item: StatementItem, accountCurrency: string,
                   listed: Option<seq<Category>>): Option<Row> {
    match StoredCents(MagnitudeText(item.amount))
    case None => None
    case Some(cents) =>
      Some(Row(user, CategoryFor(env, item, listed), cents,
               if accountCurrency != "" then accountCurrency else CurrencyCode(item.currencyCode),
               KindOf(item.amount), item.time * SECOND, item.description, item.id, item.operationAmount,
                 item.operationCurrencyCode))
  }

  /** One import attempt and what it meets: the categories it was given and whether the insert succeeds. */
  datatype Arrival = Arrival(user: Uuid, item: StatementItem, accountCurrency: string, listed: Option<seq<Category>>,
                             dbOk: bool)

  function RowOf(env: Env, a: Arrival): Option<Row> { ItemRow(env, a.user, a.item, a.accountCurrency, a.listed) }

  /** The attempt reaches the insert and the insert does not fail. */
  predicate Inserts(env: Env, a: Arrival) { a.item.amount != 0 && RowOf(env, a).Some? && a.dbOk }

  predicate Failed(env: Env, a: Arrival) { a.item.amount != 0 && !Inserts(env, a) }

  /** The table after one attempt. */
  function Import(env: Env, rows: seq<Row>, a: Arrival): seq<Row> {
    if Inserts(env, a) then Insert(rows, RowOf(env, a).value) else rows
  }

  /** The table after attempts one after another. */
  function ImportAll(env: Env, rows: seq<Row>, arrivals: seq<Arrival>): seq<Row> {
    if arrivals == [] then rows
    else Import(env, ImportAll(env, rows, arrivals[..|arrivals| - 1]), arrivals[|arrivals| - 1])
  }

  /** What one item's database calls return: the category listing, None an error, and whether the insert succeeds. */
  datatype Calls = Calls(listed: Option<seq<Category>>, insertOk: bool)

  datatype Connection = Connection(secret: string, accountIds: seq<string>, accountCurrencies: seq<string>,
                                   lastSynced: Option<int>)

  function IndexOfAccount(ids: seq<string>, id: string): (i: nat)
    ensures i <= |ids| && id !in ids[..i] && (i < |ids| ==> ids[i] == id)
  {
    if ids == [] || ids[0] == id then 0
    else
      assert ids[..1 + IndexOfAccount(ids[1..], id)] == [ids[0]] + ids[1..][..IndexOfAccount(ids[1..], id)];
      1 + IndexOfAccount(ids[1..], id)
  }

  /** The currency stored for the i-th tracked account, "" when the parallel list is shorter. */
  function CurrencyAt(conn: Connection, i: nat): string {
    if i < |conn.accountCurrencies| then conn.accountCurrencies[i] else ""
  }

  /** Which of SyncNow's calls before its loop succeed. */
  datatype Fetching = Fetching(lookupOk: bool, decryptOk: bool, fetchOk: bool)

  /** SyncNow gets as far as its loop. */
  predicate Fetches(f: Fetching, connections: map<Uuid, Connection>, user: Uuid) {
    f.lookupOk && user in connections && connections[user].accountIds != [] && f.decryptOk && f.fetchOk
  }

  /** The outcome of Item. */
  datatype ItemResult = Created | Skipped | ItemFailed

  function FailsIn(env: Env): Arrival -> bool { (a: Arrival) => Failed(env, a) }

  /** The prefix up to and including the first element that stops it. */
  function Until<T>(stop: T -> bool, s: seq<T>): (made: seq<T>)
    ensures made <= s
  {
    if s == [] then [] else if stop(s[0]) then s[..1] else [s[0]] + Until(stop, s[1..])
  }

  /** The attempts SyncNow makes: up to and including the first that fails. */
  function UntilFailure(env: Env, attempts: seq<Arrival>): (made: seq<Arrival>) { Until(FailsIn(env), attempts) }

  /** The stored tables the importer, SyncNow and the webhook share. */
  class Service {
    const env: Env
    var rows: seq<Row>
    var connections: map<Uuid, Connection>

    constructor (env: Env)
      ensures this.env == env && rows == [] && connections == map[]
    {
      this.env := env;
      rows, connections := [], map[];
    }

    /** repository.CreateWithExternalID */
    method CreateWithExternalID(row: Row, dbOk: bool) returns (created: bool, ok: bool)
      modifies this`rows
      ensures ok == dbOk && created == (dbOk && !Conflicts(old(rows), row))
      ensures rows == if dbOk then Insert(old(rows), row) else old(rows)
    {
      if !dbOk { return false, false; }
      if exists i :: 0 <= i < |rows| && rows[i].user == row.user && rows[i].externalId == row.externalId
           && row.externalId != "" {
        return false, true;
      }
      rows := rows + [row];
      return true, true;
    }

    method FindCategory(listed: Option<seq<Category>>, name: string, kind: string) returns (found: Option<Uuid>)
      ensures found == FoundCategory(env, listed, name, kind)
    {
      if listed.None? { return None; }
      var cats := listed.value;
      for i := 0 to |cats|
        invariant FirstMatch(env, cats, name, kind) == FirstMatch(env, cats[i..], name, kind)
      {
        if env.equalFold(Trim(cats[i].name), name) && cats[i].kind == kind { return Some(cats[i].id); }
      }
      found := None;
    }

    /** The categorisation step of Item. */
    method PickCategory(item: StatementItem, kind: string, listed: Option<seq<Category>>) returns (category: Uuid)
      requires kind == KindOf(item.amount)
      ensures category == CategoryFor(env, item, listed)
    {
      var name := env.categoryName(item.mcc);
      if name == "" && kind == EXPENSE { name := OTHER; }
      category := NIL;
      if name != "" {
        var found := FindCategory(listed, name, kind);
        if found.Some? { category := found.value; }
      }
    }

    /** Importer.Item */
    method Item(a: Arrival) returns (result: ItemResult)
      modifies this`rows
      ensures rows == Import(env, old(rows), a)
      ensures result == ItemFailed <==> Failed(env, a)
      ensures |rows| == |old(rows)| + if result == Created then 1 else 0
    {
      hide StoredCents, MinorUnitsText, CategoryFor, CurrencyCode;
      var item := a.item;
      if item.amount == 0 { return Skipped; }
      var kind := INCOME;
      var amount := item.amount;
      if amount < 0 {
        kind := EXPENSE;
        amount := Negate(amount);
      }
      var amountText := MinorUnitsText(amount);
      var currency := CurrencyCode(item.currencyCode);
      if a.accountCurrency != "" && currency != a.accountCurrency { currency := a.accountCurrency; }

      var category := PickCategory(item, kind, a.listed);
      var cents := StoredCents(amountText);
      if cents.None? { return ItemFailed; }
      var created, ok := CreateWithExternalID(
        Row(a.user, category, cents.value, currency, kind, item.time * SECOND, item.description, item.id,
            item.operationAmount, item.operationCurrencyCode), a.dbOk);
      if !ok { return ItemFailed; }
      result := if created then Created else Skipped;
    }

    /**
     SyncNow of the first tracked account: imported counts the rows added, also when the loop stops at an error.
     `before` says whether the lookup, the decryption of the token and the fetch succeed, `items` is what is
     fetched, and calls[i] what the database does for the i-th item.
     */
    method SyncNow(user: Uuid, before: Fetching, items: seq<StatementItem>, calls: seq<Calls>, touchOk: bool, now: int)
      returns (imported: nat, ok: bool)
      requires |calls| == |items|
      modifies this`rows, this`connections
      ensures !Fetches(before, old(connections), user) ==> !ok && imported == 0 && rows == old(rows)
      ensures Fetches(before, old(connections), user) ==>
                var attempts := Statement(user, old(connections)[user], items, calls);
                rows == ImportAll(env, old(rows), UntilFailure(env, attempts))
                && (ok <==> touchOk && forall i :: 0 <= i < |attempts| ==> !Failed(env, attempts[i]))
      ensures imported == |rows| - |old(rows)|
      ensures connections == if ok then old(connections)[user := old(connections)[user].(lastSynced := Some(now))]
              else old(connections)
    {
      if !before.lookupOk || user !in connections { return 0, false; }
      var conn := connections[user];
      if conn.accountIds == [] { return 0, false; }
      if !before.decryptOk || !before.fetchOk { return 0, false; }
      var accountCurrency := "";
      if |conn.accountCurrencies| > 0 { accountCurrency := conn.accountCurrencies[0]; }
      ghost var attempts := Statement(user, conn, items, calls);
      assert accountCurrency == CurrencyAt(conn, 0);
      imported := 0;
      for i := 0 to |items|
        invariant connections == old(connections)
        invariant rows == ImportAll(env, old(rows), attempts[..i])
        invariant forall j :: 0 <= j < i ==> !Failed(env, attempts[j])
        invariant imported == |rows| - |old(rows)|
      {
        var attempt := Arrival(user, items[i], accountCurrency, calls[i].listed, calls[i].insertOk);
        assert attempts[i] == attempt;
        ImportAllStep(env, old(rows), attempts, i);
        var result := Item(attempt);
        if result == ItemFailed {
          StopsAt(FailsIn(env), attempts, i);
          return imported, false;
        }
        if result == Created { imported := imported + 1; }
      }
      NeverStops(FailsIn(env), attempts);
      assert attempts[..|items|] == attempts;
      if !touchOk { return imported, false; }
      connections := connections[user := conn.(lastSynced := Some(now))];
      ok := true;
    }

    /** webhook.process for a statement item of `account`, delivered to the owner of the secret. */
    method Process(secret: string, lookupOk: bool, account: string, item: StatementItem, calls: Calls, touchOk: bool,
                   now: int)
      returns (ok: bool, ghost owner: Option<Uuid>)
      modifies this`rows, this`connections
      ensures owner.Some? ==> lookupOk && owner.value in old(connections)
                              && old(connections)[owner.value].secret == secret
      ensures owner.None? ==> !ok && rows == old(rows)
      ensures owner.None? && lookupOk ==> forall u :: u in old(connections) ==> old(connections)[u].secret != secret
      ensures owner.Some? ==>
                var conn := old(connections)[owner.value];
                var attempt := Pushed(owner.value, conn, account, item, calls);
                if account in conn.accountIds
                then rows == Import(env, old(rows), attempt) && (ok <==> !Failed(env, attempt) && touchOk)
                else ok && rows == old(rows)
      ensures connections == if ok && account in old(connections)[owner.value].accountIds
                             then old(connections)[owner.value :=
                                                   old(connections)[owner.value].(lastSynced := Some(now))]
                             else old(connections)
    {
      if !lookupOk { return false, None; }
      var owners := set u | u in connections && connections[u].secret == secret;
      if owners == {} {
        assert forall u :: u in connections && connections[u].secret == secret ==> u in owners;
        return false, None;
      }
      var user :| user in owners;
      owner := Some(user);
      var conn := connections[user];
      var i := IndexOfAccount(conn.accountIds, account);
      if i == |conn.accountIds| {
        assert conn.accountIds[..i] == conn.accountIds;
        return true, owner;
      }
      var accountCurrency := "";
      if i < |conn.accountCurrencies| { accountCurrency := conn.accountCurrencies[i]; }
      var result := Item(Arrival(user, item, accountCurrency, calls.listed, calls.insertOk));
      if result == ItemFailed || !touchOk { return false, owner; }
      connections := connections[user := conn.(lastSynced := Some(now))];
      return true, owner;
    }
  }

  /** The attempts behind one fetched statement; the categories are listed again for each item. */
  function Statement(user: Uuid, conn: Connection, items: seq<StatementItem>,
                     calls: seq<Calls>): (attempts: seq<Arrival>)
    requires |calls| == |items|
    ensures |attempts| == |items|
  {
    seq(|items|, i requires 0 <= i < |items| =>
      Arrival(user, items[i], CurrencyAt(conn, 0), calls[i].listed, calls[i].insertOk))
  }

  /** The attempt behind one webhook delivery. */
  function Pushed(user: Uuid, conn: Connection, account: string, item: StatementItem, calls: Calls): Arrival {
    Arrival(user, item, CurrencyAt(conn, IndexOfAccount(conn.accountIds, account)), calls.listed, calls.insertOk)
  }

  lemma ImportAllStep(env: Env, rows: seq<Row>, attempts: seq<Arrival>, i: nat)
    requires i < |attempts|
    ensures ImportAll(env, rows, attempts[..i + 1]) == Import(env, ImportAll(env, rows, attempts[..i]), attempts[i])
  {
    assert attempts[..i + 1][..i] == attempts[..i];
  }

  lemma {:induction false} StopsAt<T>(stop: T -> bool, s: seq<T>, i: nat)
    requires i < |s| && stop(s[i]) && forall j :: 0 <= j < i ==> !stop(s[j])
    ensures Until(stop, s) == s[..i + 1]
  {
    if i > 0 {
      StopsAt(stop, s[1..], i - 1);
      assert s[..i + 1] == [s[0]] + s[1..][..i];
    }
  }

  lemma {:induction false} NeverStops<T>(stop: T -> bool, s: seq<T>)
    requires forall j :: 0 <= j < |s| ==> !stop(s[j])
    ensures Until(stop, s) == s
    decreases |s|
  {
    if s != [] { NeverStops(stop, s[1..]); }
  }
}
