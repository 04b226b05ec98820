/** The transactions table: its rows and the insert that Monobank imports use. */
module Ledger {
  import opened Orders
  import opened Kinds

  /** A stored transaction; cents are hundredths of the currency unit, category NIL is SQL NULL. */
  datatype Row = Row(
    user: Uuid, category: Uuid, cents: int, currency: string, kind: string, date: int, note: string,
    externalId: string, operationAmount: int, operationCurrencyCode: int)

  /** The partial unique index on (user_id, external_id). */
  predicate Conflicts(rows: seq<Row>, row: Row) {
    row.externalId != "" && exists i :: 0 <= i < |rows| && rows[i].user == row.user
                              && rows[i].externalId == row.externalId
  }

  /** TransactionCreateWithExternalID: ON CONFLICT DO NOTHING. */
  function Insert(rows: seq<Row>, row: Row): seq<Row> { if Conflicts(rows, row) then rows else rows + [row] }

  /** What the index promises. */
  predicate UniqueIds(rows: seq<Row>) {
    forall i, j :: 0 <= i < j < |rows| && rows[i].user == rows[j].user && rows[i].externalId == rows[j].externalId
                   ==> rows[i].externalId == ""
  }

  lemma InsertKeepsUnique(rows: seq<Row>, row: Row)
    requires UniqueIds(rows)
    ensures UniqueIds(Insert(rows, row))
  {}

  /** Income counts up, everything else down. */
  function Signed(row: Row): int { if row.kind == INCOME then row.cents else -row.cents }

  function Balance(rows: seq<Row>): int {
    if rows == [] then 0 else Balance(rows[..|rows| - 1]) + Signed(rows[|rows| - 1])
  }
}
