/**
 The product table as an in-memory map keyed by id, with the value the
 id sequence hands out next.
 */
module Store {
  import opened JsonValue

  /** A persisted row. `name` is kept as the JSON value the client sent. */
  datatype Product = Product(id: int, name: Json, price: real, availability: bool)

  /** The table and its auto-increment sequence. */
  datatype Db = Db(rows: map<int, Product>, nextId: int)

  const Empty := Db(map[], 1)

  /** Every row is stored under its own id, as a primary key keeps it. */
  predicate Keyed(rows: map<int, Product>) {
    forall k | k in rows :: rows[k].id == k
  }

  /**
   Ids are positive, every row is stored under its own id, and the sequence
   is past every id already handed out.
   */
  predicate WellFormed(db: Db) {
    && db.nextId >= 1
    && Keyed(db.rows)
    && forall k | k in db.rows :: 1 <= k < db.nextId
  }
}
