/** SQL values, rows and tables, shared by the plan-level and the query-level models. */
module Values {
  datatype Value = Null | Datum(v: int)

  type Row = seq<Value>

  type Table = seq<Row>

  // Attribute numbers start at 1.
  function At(row: Row, attno: int): Value {
    if 0 < attno <= |row| then row[attno - 1] else Null
  }

  // Whether a SQL filter lets a row through.
  predicate Passes(v: Value) { v.Datum? && v.v != 0 }

  predicate AllPass(vs: Row) { forall i :: 0 <= i < |vs| ==> Passes(vs[i]) }
}
