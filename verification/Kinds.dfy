/** The two transaction types. */
module Kinds {
  const INCOME := "income"
  const EXPENSE := "expense"

  predicate IsKind(kind: string) { kind == EXPENSE || kind == INCOME }
}
