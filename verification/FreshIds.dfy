/** Generated ids, drawn one after another. */
module FreshIds {
  /** Ids never repeat, and no id still to be drawn names a row. */
  ghost predicate Unused<V>(newId: nat -> string, drawn: nat, rows: map<string, V>) {
    && (forall m, n :: newId(m) == newId(n) ==> m == n)
    && (forall n | drawn <= n :: newId(n) !in rows)
  }
}
