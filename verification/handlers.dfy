/**
 The six product handlers. Each one takes the table and the already
 validated request values, and gives the table afterwards together with the
 reply. Those that address one product share the lookup-then-404 step.
 */
module Handlers {
  import opened Wrappers
  import opened JsonValue
  import opened Store
  import opened Listing
  import opened Validation

  datatype Payload = Item(product: Product) | Items(products: seq<Product>) | Note(text: string)

  /** `{data: ...}`, `{errors: [...]}` or `{error: ...}`. */
  datatype ResponseBody = Data(payload: Payload) | Errors(errors: seq<Violation>) | Error(message: string)

  /**
   A response written with a status and a JSON body; `PassedOn` when no route
   of the router matches; `Failed` when a store call rejects and the error
   propagates unhandled, with nothing written.
   */
  datatype Reply = Sent(status: int, body: ResponseBody) | PassedOn | Failed

  datatype Outcome = Outcome(db: Db, reply: Reply)

  const NotFoundMsg := "El producto no existe."
  const DeletedMsg := "Success: Producto eliminado"

  predicate HasData(r: Reply) {
    r.Sent? && r.body.Data?
  }

  /** The shared 404 reply of the lookup step; the table is left as it was. */
  function NotFound(db: Db): Outcome {
    Outcome(db, Sent(404, Error(NotFoundMsg)))
  }

  /** `findByPk`. */
  function Find(db: Db, id: int): Option<Product> {
    if id in db.rows then Some(db.rows[id]) else None
  }

  /** `getProducts`: the 50 dearest rows, dearest first, with no change to the table. */
  function GetProducts(db: Db): (o: Outcome)
    requires WellFormed(db)
    ensures o.db == db
    ensures o.reply.Sent? && o.reply.status == 200
    ensures o.reply.body.Data? && o.reply.body.payload.Items?
    ensures IsTopListing(o.reply.body.payload.products, db.rows)
  {
    Outcome(db, Sent(200, Data(Items(TopByPrice(db.rows)))))
  }

  /** `getProductById`: the stored row, or 404 when there is none; never a change. */
  function GetProductById(db: Db, id: int): (o: Outcome)
    ensures o.db == db
    ensures HasData(o.reply) <==> id in db.rows
    ensures id in db.rows ==> o.reply == Sent(200, Data(Item(db.rows[id])))
    ensures id !in db.rows ==> o.reply == Sent(404, Error(NotFoundMsg))
  {
    match Find(db, id)
    case None => NotFound(db)
    case Some(p) => Outcome(db, Sent(200, Data(Item(p))))
  }

  /**
   Whether the table accepts the `availability` a create request carries:
   an absent value takes the column default, a boolean-like value is coerced.
   */
  predicate Storable(availability: Option<Json>) {
    availability.None? || Passes(IsBoolean, availability)
  }

  /** The boolean a value accepted by `isBoolean` is stored as. */
  function BoolOf(v: Json): bool
    requires Passes(IsBoolean, Some(v))
  {
    match v
    case JBool(b) => b
    case JStr(s) => s == "true" || s == "1"
    case JNum(n) => n == 1.0
    case JNull => false
  }

  /** The stored availability: the default `true` when absent. */
  function StoredAvailability(availability: Option<Json>): bool
    requires Storable(availability)
  {
    if availability.None? then true else BoolOf(availability.value)
  }

  /**
   `createProduct`: inserts a row under the next id of the sequence and
   answers 201 with it; the rows already stored are untouched.
   */
  function CreateProduct(db: Db, name: Json, price: real, availability: Option<Json>): (o: Outcome)
    requires WellFormed(db)
    ensures WellFormed(o.db)
    ensures o.reply.Failed? <==> !Storable(availability)
    ensures o.reply.Failed? ==> o.db == db
    ensures !o.reply.Failed? ==>
      && o.reply.Sent? && o.reply.status == 201
      && o.reply.body.Data? && o.reply.body.payload.Item?
      && var p := o.reply.body.payload.product;
      && p.id !in db.rows
      && o.db.rows == db.rows[p.id := p]
      && p.name == name && p.price == price
      && p.availability == StoredAvailability(availability)
  {
    if !Storable(availability) then Outcome(db, Failed)
    else
      var p := Product(db.nextId, name, price, StoredAvailability(availability));
      Outcome(Db(db.rows[p.id := p], db.nextId + 1), Sent(201, Data(Item(p))))
  }

  /**
   `updateProduct`: overwrites name, price and availability of an existing
   row, keeping its id, and answers 200 with it; 404 and no change otherwise.
   */
  function UpdateProduct(db: Db, id: int, name: Json, price: real, availability: bool): (o: Outcome)
    requires WellFormed(db)
    ensures WellFormed(o.db)
    ensures id !in db.rows ==> o == NotFound(db)
    ensures id in db.rows ==>
      && o.db.rows.Keys == db.rows.Keys
      && o.reply == Sent(200, Data(Item(o.db.rows[id])))
      && o.db.nextId == db.nextId
      && o.db.rows[id] == Product(id, name, price, availability)
      && forall k | k in db.rows && k != id :: o.db.rows[k] == db.rows[k]
  {
    match Find(db, id)
    case None => NotFound(db)
    case Some(p) =>
      var q := p.(name := name, price := price, availability := availability);
      Outcome(db.(rows := db.rows[id := q]), Sent(200, Data(Item(q))))
  }

  /**
   `updateProductAvailability`: flips the availability of an existing row,
   leaving its other fields alone, and answers 200 with it; 404 and no
   change otherwise.
   */
  function UpdateProductAvailability(db: Db, id: int): (o: Outcome)
    requires WellFormed(db)
    ensures WellFormed(o.db)
    ensures id !in db.rows ==> o == NotFound(db)
    ensures id in db.rows ==>
      && o.db.rows.Keys == db.rows.Keys
      && o.reply == Sent(200, Data(Item(o.db.rows[id])))
      && o.db.nextId == db.nextId
      && o.db.rows[id].availability == !db.rows[id].availability
      && o.db.rows[id].(availability := db.rows[id].availability) == db.rows[id]
      && forall k | k in db.rows && k != id :: o.db.rows[k] == db.rows[k]
  {
    match Find(db, id)
    case None => NotFound(db)
    case Some(p) =>
      var q := p.(availability := !p.availability);
      Outcome(db.(rows := db.rows[id := q]), Sent(200, Data(Item(q))))
  }

  /**
   `deleteProduct`: removes an existing row and answers 200 with the
   confirmation text; 404 and no change otherwise.
   */
  function DeleteProduct(db: Db, id: int): (o: Outcome)
    requires WellFormed(db)
    ensures WellFormed(o.db)
    ensures id !in db.rows ==> o == NotFound(db)
    ensures id in db.rows ==>
      && o.reply == Sent(200, Data(Note(DeletedMsg)))
      && o.db.nextId == db.nextId
      && o.db.rows.Keys == db.rows.Keys - {id}
      && forall k | k in o.db.rows :: o.db.rows[k] == db.rows[k]
  {
    match Find(db, id)
    case None => NotFound(db)
    case Some(_) => Outcome(db.(rows := db.rows - {id}), Sent(200, Data(Note(DeletedMsg))))
  }
}
