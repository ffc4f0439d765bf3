/**
 Properties of the whole request pipeline: how validation, the gate, the
 lookup and the mutations combine, stated over `Router.Handle`.
 */
module Pipeline {
  import opened Wrappers
  import opened Text
  import opened JsonValue
  import opened Store
  import opened Listing
  import opened Validation
  import opened Handlers
  import opened Router

  /** Every persisted row has a positive price and a non-empty name. */
  predicate Sound(db: Db) {
    forall k | k in db.rows :: db.rows[k].price > 0.0 && Passes(NotEmpty, Some(db.rows[k].name))
  }

  /** The empty table a fresh database starts from meets both invariants. */
  lemma EmptyTableSound()
    ensures WellFormed(Empty) && Sound(Empty)
  {
  }

  /** The path `/api/products/<n>`. */
  function PathTo(n: nat): Path {
    ShowDigits(n);
    Member(Show(n))
  }

  /** The single error a malformed `:id` produces. */
  const BadId := Violation(Param, "id", IdMsg)

  /**
   GET, PATCH and DELETE on a segment that is not an integer answer 400 with
   exactly one error, "ID no válido.", and change nothing.
   */
  lemma MalformedIdRejected(db: Db, req: Request)
    requires WellFormed(db)
    requires req.verb == GET || req.verb == PATCH || req.verb == DELETE
    requires req.path.Member? && !IntText(req.path.segment)
    ensures Handle(db, req) == Outcome(db, Sent(400, Errors([BadId])))
  {
    var route := Dispatch(req).value;
    var inp := Inputs(Some(req.path.segment), req.body);
    IdRulesSteps(inp);
    assert Violations(route, req.body) == [BadId];
  }

  /** A PUT with a well-formed body on a malformed id reports the id alone. */
  lemma PutMalformedIdOnly(db: Db, segment: Segment, body: Fields)
    requires WellFormed(db)
    requires !IntText(segment)
    requires "name" in body && Passes(NotEmpty, Some(body["name"]))
    requires "price" in body && Passes(IsNumeric, Some(body["price"])) && Passes(GreaterThanZero, Some(body["price"]))
    requires "availability" in body && Passes(IsBoolean, Some(body["availability"]))
    ensures Handle(db, Request(PUT, Member(segment), body)) == Outcome(db, Sent(400, Errors([BadId])))
  {
    var inp := Inputs(Some(segment), body);
    UpdateRulesSteps(inp);
    PriceRuleSteps(inp);
    NumericIsNotEmpty(Some(body["price"]));
    assert RunRule(IdRule, inp) == [BadId];
    assert RunRule(NameRule, inp) == [];
    assert RunRule(PriceRule, inp) == [];
    assert RunRule(AvailabilityRule, inp) == [];
  }

  /**
   The gate decides: a routed request is answered 400 exactly when its
   chains report a violation, and then with all of them, no `data`, and no
   change to the table.
   */
  lemma GateDecides(db: Db, req: Request)
    requires WellFormed(db)
    requires Dispatch(req).Some?
    ensures var o := Handle(db, req);
      var vs := Violations(Dispatch(req).value, req.body);
      && (o.reply.Sent? && o.reply.status == 400 <==> vs != [])
      && (vs != [] ==> o == Outcome(db, Sent(400, Errors(vs))) && !HasData(o.reply))
      && (vs == [] ==> o == Run(db, Dispatch(req).value, req.body))
  {
  }

  /** Only a successful mutation changes the table: errors, 404s and failures leave it as it was. */
  lemma ErrorsLeaveTableAlone(db: Db, req: Request)
    requires WellFormed(db)
    ensures var o := Handle(db, req);
      !(o.reply.Sent? && o.reply.status in {200, 201}) ==> o.db == db
  {
  }

  /** A POST or PUT with a well-formed rest of the body and a numeric price not above zero reports one error. */
  lemma NonPositivePriceOneError(db: Db, req: Request)
    requires WellFormed(db)
    requires (req.verb == POST && req.path == Collection) || (req.verb == PUT && req.path.Member? && IntText(req.path.segment))
    requires "name" in req.body && Passes(NotEmpty, Some(req.body["name"]))
    requires "price" in req.body && Passes(IsNumeric, Some(req.body["price"]))
    requires !Passes(GreaterThanZero, Some(req.body["price"]))
    requires req.verb == PUT ==> "availability" in req.body && Passes(IsBoolean, Some(req.body["availability"]))
    ensures var o := Handle(db, req);
      o.db == db && o.reply.Sent? && o.reply.status == 400 && o.reply.body.Errors? && |o.reply.body.errors| == 1
  {
    var route := Dispatch(req).value;
    var inp := Inputs(SegmentOf(route), req.body);
    NumericPriceViolations(inp);
    if req.verb == POST {
      CreateRulesSteps(inp);
    } else {
      UpdateRulesSteps(inp);
    }
  }

  /**
   A PUT with an empty body on a well-formed id reports five violations: one
   for the name, three for the price, one for the availability, none for the id.
   */
  lemma EmptyPutBody(db: Db, segment: Segment)
    requires WellFormed(db)
    requires IntText(segment)
    ensures var o := Handle(db, Request(PUT, Member(segment), map[]));
      && o.db == db && o.reply.Sent? && o.reply.status == 400 && o.reply.body.Errors?
      && var vs := o.reply.body.errors;
      && |vs| == 5
      && |ForField(vs, "id")| == 0
      && |ForField(vs, "name")| == 1
      && |ForField(vs, "price")| == 3
      && |ForField(vs, "availability")| == 1
  {
    EmptyPutViolations(segment);
    var vs := Violations(PutRoute(segment), map[]);
    GateDecides(db, Request(PUT, Member(segment), map[]));
    FieldCounts(vs[0], vs[1], vs[2], vs[3], vs[4]);
    assert vs == [vs[0], vs[1], vs[2], vs[3], vs[4]];
  }

  /** Per-field counts of five violations on name, price, price, price and availability. */
  lemma FieldCounts(w0: Violation, w1: Violation, w2: Violation, w3: Violation, w4: Violation)
    requires w0.field == "name" && w1.field == "price" && w2.field == "price" && w3.field == "price"
    requires w4.field == "availability"
    ensures var vs := [w0, w1, w2, w3, w4];
      && |ForField(vs, "id")| == 0
      && |ForField(vs, "name")| == 1
      && |ForField(vs, "price")| == 3
      && |ForField(vs, "availability")| == 1
  {
    SplitFive(w0, w1, w2, w3, w4, "id");
    SplitFive(w0, w1, w2, w3, w4, "name");
    SplitFive(w0, w1, w2, w3, w4, "price");
    SplitFive(w0, w1, w2, w3, w4, "availability");
  }

  lemma SplitFive(w0: Violation, w1: Violation, w2: Violation, w3: Violation, w4: Violation, f: string)
    ensures ForField([w0, w1, w2, w3, w4], f) ==
      ForField([w0], f) + ForField([w1], f) + ForField([w2], f) + ForField([w3], f) + ForField([w4], f)
    ensures forall w :: ForField([w], f) == if w.field == f then [w] else []
  {
    forall w ensures ForField([w], f) == if w.field == f then [w] else [] {
      assert [w][1..] == [];
    }
    assert [w0, w1, w2, w3, w4] == [w0] + [w1] + [w2] + [w3] + [w4];
    ForFieldAppend([w0] + [w1] + [w2] + [w3], [w4], f);
    ForFieldAppend([w0] + [w1] + [w2], [w3], f);
    ForFieldAppend([w0] + [w1], [w2], f);
    ForFieldAppend([w0], [w1], f);
  }

  /** The violations of an empty PUT body on a well-formed id, in declaration order. */
  lemma EmptyPutViolations(segment: string)
    requires IntText(segment)
    ensures Violations(PutRoute(segment), map[]) == [
      Violation(Body, "name", NameMsg),
      Violation(Body, "price", PriceInvalidMsg),
      Violation(Body, "price", PriceMissingMsg),
      Violation(Body, "price", PriceInvalidMsg),
      Violation(Body, "availability", AvailabilityMsg)]
  {
    var inp := Inputs(Some(segment), map[]);
    var name := Violation(Body, "name", NameMsg);
    var invalid := Violation(Body, "price", PriceInvalidMsg);
    var missing := Violation(Body, "price", PriceMissingMsg);
    var avail := Violation(Body, "availability", AvailabilityMsg);
    UpdateRulesSteps(inp);
    PriceRuleSteps(inp);
    assert RunRule(IdRule, inp) == [];
    assert RunRule(NameRule, inp) == [name];
    assert RunRule(PriceRule, inp) == [invalid] + [missing] + [invalid];
    assert RunRule(AvailabilityRule, inp) == [avail];
    assert [] + [name] + ([invalid] + [missing] + [invalid]) + [avail] == [name, invalid, missing, invalid, avail];
  }

  /** A POST whose name is absent, null or empty reports the name's violation. */
  lemma NameReported(body: Fields)
    requires "name" !in body || !Passes(NotEmpty, Some(body["name"]))
    ensures Violation(Body, "name", NameMsg) in Violations(PostRoute, body)
  {
    var inp := Inputs(None, body);
    var w := Violation(Body, "name", NameMsg);
    CreateRulesSteps(inp);
    assert RunRule(NameRule, inp) == [w];
    assert Violations(PostRoute, body) == [w] + RunRule(PriceRule, inp);
  }

  /**
   POST requires a name: when it is absent, null or empty the request is
   answered 400 with the name's violation among the errors, no data, and no
   change to the table.
   */
  lemma PostMissingName(db: Db, body: Fields)
    requires WellFormed(db)
    requires "name" !in body || !Passes(NotEmpty, Some(body["name"]))
    ensures var o := Handle(db, Request(POST, Collection, body));
      && o.db == db && o.reply.Sent? && o.reply.status == 400 && o.reply.body.Errors?
      && Violation(Body, "name", NameMsg) in o.reply.body.errors
      && !HasData(o.reply)
  {
    NameReported(body);
    GateDecides(db, Request(POST, Collection, body));
  }

  /** PUT requires `availability`: when it is absent or not boolean-like, its violation is reported. */
  lemma PutChecksAvailability(db: Db, segment: Segment, body: Fields)
    requires WellFormed(db)
    requires "availability" !in body || !Passes(IsBoolean, Some(body["availability"]))
    ensures var o := Handle(db, Request(PUT, Member(segment), body));
      && o.db == db && o.reply.Sent? && o.reply.status == 400 && o.reply.body.Errors?
      && Violation(Body, "availability", AvailabilityMsg) in o.reply.body.errors
  {
    AvailabilityReported(segment, body);
    GateDecides(db, Request(PUT, Member(segment), body));
  }

  lemma AvailabilityReported(segment: string, body: Fields)
    requires "availability" !in body || !Passes(IsBoolean, Some(body["availability"]))
    ensures Violation(Body, "availability", AvailabilityMsg) in Violations(PutRoute(segment), body)
  {
    var inp := Inputs(Some(segment), body);
    var w := Violation(Body, "availability", AvailabilityMsg);
    UpdateRulesSteps(inp);
    assert RunRule(AvailabilityRule, inp) == [w];
    var front := RunRule(IdRule, inp) + RunRule(NameRule, inp) + RunRule(PriceRule, inp);
    assert Violations(PutRoute(segment), body) == front + [w];
    assert (front + [w])[|front|] == w;
  }

  /** POST never looks at `availability`: replacing or removing it leaves the violations as they were. */
  lemma PostIgnoresAvailability(body: Fields, v: Json)
    ensures Violations(PostRoute, body["availability" := v]) == Violations(PostRoute, body)
    ensures Violations(PostRoute, body - {"availability"}) == Violations(PostRoute, body)
  {
    var inp := Inputs(None, body);
    var inp1 := Inputs(None, body["availability" := v]);
    var inp2 := Inputs(None, body - {"availability"});
    CreateRulesSteps(inp);
    CreateRulesSteps(inp1);
    CreateRulesSteps(inp2);
    assert ValueOf(NameRule, inp1) == ValueOf(NameRule, inp) == ValueOf(NameRule, inp2);
    assert ValueOf(PriceRule, inp1) == ValueOf(PriceRule, inp) == ValueOf(PriceRule, inp2);
  }

  /** The list route has no validation stage: every GET of the collection reaches `getProducts`. */
  lemma ListAlwaysAnswers(db: Db, body: Fields)
    requires WellFormed(db)
    ensures var o := Handle(db, Request(GET, Collection, body));
      && o.db == db && o.reply.Sent? && o.reply.status == 200
      && o.reply.body.Data? && o.reply.body.payload.Items?
      && IsTopListing(o.reply.body.payload.products, db.rows)
  {
  }

  /** Whatever passes the POST or PUT chains carries a numeric price above zero. */
  lemma ValidatedPricePositive(route: Route, body: Fields)
    requires route == PostRoute || route.PutRoute?
    requires Violations(route, body) == []
    ensures "price" in body && Passes(IsNumeric, Some(body["price"]))
    ensures PriceOf(body["price"]) > 0.0
  {
    if route == PostRoute {
      CreateFieldsPassed(body);
    } else {
      UpdateFieldsPassed(route.segment, body);
    }
  }

  /** No request breaks `Sound`: prices stay positive and names non-empty. */
  lemma HandleKeepsSound(db: Db, req: Request)
    requires WellFormed(db) && Sound(db)
    ensures Sound(Handle(db, req).db)
  {
    match Dispatch(req)
    case None =>
    case Some(route) =>
      if Violations(route, req.body) == [] {
        RunKeepsSound(db, route, req.body);
      }
  }

  lemma RunKeepsSound(db: Db, route: Route, body: Fields)
    requires WellFormed(db) && Sound(db)
    requires Violations(route, body) == []
    ensures Sound(Run(db, route, body).db)
  {
    var o := Run(db, route, body);
    match route
    case PostRoute =>
      CreateFieldsPassed(body);
      if !o.reply.Failed? {
        var p := o.reply.body.payload.product;
        assert p.price > 0.0 && Passes(NotEmpty, Some(p.name));
        forall k | k in o.db.rows
          ensures o.db.rows[k].price > 0.0 && Passes(NotEmpty, Some(o.db.rows[k].name))
        {
          if k != p.id {
            assert o.db.rows[k] == db.rows[k];
          }
        }
      }
    case PutRoute(s) =>
      UpdateFieldsPassed(s, body);
      var id := IntValue(s);
      if id in db.rows {
        forall k | k in o.db.rows
          ensures o.db.rows[k].price > 0.0 && Passes(NotEmpty, Some(o.db.rows[k].name))
        {
          if k != id {
            assert o.db.rows[k] == db.rows[k];
          }
        }
      }
    case PatchRoute(s) =>
      var id := IntValue(s);
      if id in db.rows {
        forall k | k in o.db.rows
          ensures o.db.rows[k].price > 0.0 && Passes(NotEmpty, Some(o.db.rows[k].name))
        {
          if k != id {
            assert o.db.rows[k] == db.rows[k];
          }
        }
      }
    case DeleteRoute(s) =>
    case GetRoute(s) =>
    case ListRoute =>
  }

  /** GET `/api/products/<n>` answers the stored row, or 404 when there is none; nothing changes. */
  lemma GetById(db: Db, n: nat, body: Fields)
    requires WellFormed(db)
    ensures var o := Handle(db, Request(GET, PathTo(n), body));
      && o.db == db
      && (n in db.rows ==> o.reply == Sent(200, Data(Item(db.rows[n]))))
      && (n !in db.rows ==> o.reply == Sent(404, Error(NotFoundMsg)) && !HasData(o.reply))
  {
    ShowParses(n);
    IdRulesSteps(Inputs(Some(Show(n)), body));
  }

  /** A created product is stored under a fresh id and a GET of that id answers it. */
  lemma CreateThenGet(db: Db, body: Fields)
    requires WellFormed(db)
    requires Violations(PostRoute, body) == []
    requires Storable(Lookup(body, "availability"))
    ensures var o := Handle(db, Request(POST, Collection, body));
      && o.reply.Sent? && o.reply.status == 201 && o.reply.body.Data? && o.reply.body.payload.Item?
      && var p := o.reply.body.payload.product;
      && p.id !in db.rows && p.id >= 1
      && (forall k | k in db.rows :: k in o.db.rows && o.db.rows[k] == db.rows[k])
      && Handle(o.db, Request(GET, PathTo(p.id), map[])).reply == Sent(200, Data(Item(p)))
  {
    var o := Handle(db, Request(POST, Collection, body));
    var p := o.reply.body.payload.product;
    GetById(o.db, p.id, map[]);
  }

  /** PUT on an id with no row answers 404 and changes nothing. */
  lemma PutMissingId(db: Db, n: nat, body: Fields)
    requires WellFormed(db)
    requires n !in db.rows
    requires Violations(PutRoute(Show(n)), body) == []
    ensures Handle(db, Request(PUT, PathTo(n), body)) == Outcome(db, Sent(404, Error(NotFoundMsg)))
  {
    ShowParses(n);
  }

  /**
   A valid PUT on a stored row overwrites its name, price and availability
   from the body and keeps its id; every other row is untouched.
   */
  lemma PutOverwrites(db: Db, n: nat, body: Fields)
    requires WellFormed(db)
    requires n in db.rows
    requires Violations(PutRoute(Show(n)), body) == []
    ensures var o := Handle(db, Request(PUT, PathTo(n), body));
      && o.reply.Sent? && o.reply.status == 200
      && o.db.rows.Keys == db.rows.Keys
      && "name" in body && "price" in body && "availability" in body
      && Passes(IsNumeric, Some(body["price"])) && Passes(IsBoolean, Some(body["availability"]))
      && o.db.rows[n] == Product(n, body["name"], PriceOf(body["price"]), BoolOf(body["availability"]))
      && o.reply.body == Data(Item(o.db.rows[n]))
      && forall k | k in db.rows && k != n :: o.db.rows[k] == db.rows[k]
  {
    ShowParses(n);
    UpdateFieldsPassed(Show(n), body);
  }

  /** Repeating any PUT gives the table a single PUT gives. */
  lemma PutIdempotent(db: Db, req: Request)
    requires WellFormed(db)
    requires req.verb == PUT
    ensures Handle(Handle(db, req).db, req).db == Handle(db, req).db
  {
    var o := Handle(db, req);
    if req.path.Member? && Violations(PutRoute(req.path.segment), req.body) == [] {
      var s := req.path.segment;
      UpdateFieldsPassed(s, req.body);
      var id := IntValue(s);
      if id in db.rows {
        assert o.db.rows[id := o.db.rows[id]] == o.db.rows;
      }
    }
  }

  /**
   Any PATCH applied twice restores the table: the availability flips back,
   and an absent id or malformed segment changes nothing either time.
   */
  lemma PatchTwiceRestores(db: Db, req: Request)
    requires WellFormed(db)
    requires req.verb == PATCH
    ensures Handle(Handle(db, req).db, req).db == db
  {
    var o := Handle(db, req);
    if req.path.Member? && Violations(PatchRoute(req.path.segment), req.body) == [] {
      var id := IntValue(req.path.segment);
      if id in db.rows {
        var o2 := Handle(o.db, req);
        assert o2.db.rows[id] == db.rows[id];
        assert o2.db.rows == db.rows;
      }
    }
  }

  /** PATCH flips the availability of a stored row and keeps its id, name and price. */
  lemma PatchFlips(db: Db, n: nat, body: Fields)
    requires WellFormed(db)
    requires n in db.rows
    ensures var o := Handle(db, Request(PATCH, PathTo(n), body));
      && o.reply.Sent? && o.reply.status == 200
      && o.db.rows.Keys == db.rows.Keys
      && o.db.rows[n] == db.rows[n].(availability := !db.rows[n].availability)
      && o.reply.body == Data(Item(o.db.rows[n]))
  {
    var req := Request(PATCH, PathTo(n), body);
    ShowParses(n);
    IdRulesSteps(Inputs(Some(Show(n)), body));
    assert Violations(PatchRoute(Show(n)), body) == [];
    GateDecides(db, req);
    assert Handle(db, req) == UpdateProductAvailability(db, n);
  }

  /**
   DELETE removes exactly the addressed row and confirms; afterwards GET and
   DELETE of that id answer 404. An absent id answers 404 and changes nothing.
   */
  lemma DeleteRemoves(db: Db, n: nat, body: Fields)
    requires WellFormed(db)
    ensures var o := Handle(db, Request(DELETE, PathTo(n), body));
      && (n !in db.rows ==> o == Outcome(db, Sent(404, Error(NotFoundMsg))))
      && (n in db.rows ==>
        && o.reply == Sent(200, Data(Note(DeletedMsg)))
        && o.db.rows == db.rows - {n}
        && Handle(o.db, Request(GET, PathTo(n), map[])).reply == Sent(404, Error(NotFoundMsg))
        && Handle(o.db, Request(DELETE, PathTo(n), map[])) == Outcome(o.db, Sent(404, Error(NotFoundMsg))))
  {
    ShowParses(n);
    IdRulesSteps(Inputs(Some(Show(n)), body));
    var o := Handle(db, Request(DELETE, PathTo(n), body));
    if n in db.rows {
      GetById(o.db, n, map[]);
      IdRulesSteps(Inputs(Some(Show(n)), map[]));
    }
  }

  /** The body `{name: "Mouse - TEST", price: 50, availability: false}`. */
  const MouseBody: Fields := map["name" := JStr("Mouse - TEST"), "price" := JNum(50.0), "availability" := JBool(false)]

  /**
   End to end: POST the mouse answers 201 with `availability` false; PATCH
   of its id answers 200 with `availability` true; DELETE answers the
   confirmation; a later GET answers 404.
   */
  lemma MouseLifecycle(db: Db)
    requires WellFormed(db)
    ensures var created := Handle(db, Request(POST, Collection, MouseBody));
      && created.reply.Sent? && created.reply.status == 201
      && created.reply.body.Data? && created.reply.body.payload.Item?
      && var p := created.reply.body.payload.product;
      && p.availability == false
      && var patched := Handle(created.db, Request(PATCH, PathTo(p.id), map[]));
      && patched.reply.Sent? && patched.reply.status == 200
      && patched.reply.body == Data(Item(p.(availability := true)))
      && var deleted := Handle(patched.db, Request(DELETE, PathTo(p.id), map[]));
      && deleted.reply == Sent(200, Data(Note(DeletedMsg)))
      && Handle(deleted.db, Request(GET, PathTo(p.id), map[])).reply == Sent(404, Error(NotFoundMsg))
  {
    var inp := Inputs(None, MouseBody);
    CreateRulesSteps(inp);
    PriceRuleSteps(inp);
    assert Violations(PostRoute, MouseBody) == [];
    var created := Handle(db, Request(POST, Collection, MouseBody));
    var p := created.reply.body.payload.product;
    PatchFlips(created.db, p.id, map[]);
    var patched := Handle(created.db, Request(PATCH, PathTo(p.id), map[]));
    DeleteRemoves(patched.db, p.id, map[]);
  }
}
