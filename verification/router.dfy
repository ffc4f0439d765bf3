/**
 The product router: the route table, the validation chains each route
 declares, the input-error gate, and the dispatch to the handler. `Handle`
 is the whole pipeline for one request against the table.
 */
module Router {
  import opened Wrappers
  import opened Text
  import opened JsonValue
  import opened Store
  import opened Validation
  import opened Handlers

  datatype Verb = GET | POST | PUT | PATCH | DELETE

  /** What `/:id` binds: one non-empty path segment. */
  type Segment = s: string | |s| > 0 witness "1"

  /** `/api/products` or `/api/products/:id`. */
  datatype Path = Collection | Member(segment: Segment)

  datatype Request = Request(verb: Verb, path: Path, body: Fields)

  datatype Route =
    | ListRoute
    | GetRoute(segment: string)
    | PostRoute
    | PutRoute(segment: string)
    | PatchRoute(segment: string)
    | DeleteRoute(segment: string)

  /** The route table, in the order the router declares it. */
  function Dispatch(req: Request): Option<Route> {
    match (req.verb, req.path)
    case (GET, Collection) => Some(ListRoute)
    case (GET, Member(s)) => Some(GetRoute(s))
    case (POST, Collection) => Some(PostRoute)
    case (PUT, Member(s)) => Some(PutRoute(s))
    case (PATCH, Member(s)) => Some(PatchRoute(s))
    case (DELETE, Member(s)) => Some(DeleteRoute(s))
    case _ => None
  }

  /** The validation chains a route declares before its handler; the list route has none. */
  function RulesOf(route: Route): seq<Rule> {
    match route
    case ListRoute => []
    case PostRoute => CreateRules
    case PutRoute(_) => UpdateRules
    case GetRoute(_) => IdRules
    case PatchRoute(_) => IdRules
    case DeleteRoute(_) => IdRules
  }

  function SegmentOf(route: Route): Option<string> {
    match route
    case ListRoute => None
    case PostRoute => None
    case GetRoute(s) => Some(s)
    case PutRoute(s) => Some(s)
    case PatchRoute(s) => Some(s)
    case DeleteRoute(s) => Some(s)
  }

  /** Every violation the route's chains report for this body. */
  function Violations(route: Route, body: Fields): seq<Violation> {
    RunRules(RulesOf(route), Inputs(SegmentOf(route), body))
  }

  /**
   `handleInputErrors`: lets the request through, writing nothing, when no
   violation was reported, and otherwise answers 400 with all of them.
   `Pipeline.GateDecides` states what this means for a whole request.
   */
  function Gate(vs: seq<Violation>): Option<Reply> {
    if vs == [] then None else Some(Sent(400, Errors(vs)))
  }

  /** What a body that passed the POST chains guarantees the handler. */
  lemma CreateFieldsPassed(body: Fields)
    requires RunRules(CreateRules, Inputs(None, body)) == []
    ensures "name" in body && Passes(NotEmpty, Some(body["name"]))
    ensures "price" in body && Passes(IsNumeric, Some(body["price"]))
    ensures Passes(GreaterThanZero, Some(body["price"]))
  {
    var inp := Inputs(None, body);
    RunRulesEmpty(CreateRules, inp);
    assert RulePasses(CreateRules[0], inp);
    assert RulePasses(CreateRules[1], inp);
    assert Passes(PriceRule.chain[0].check, ValueOf(PriceRule, inp));
    assert Passes(PriceRule.chain[2].check, ValueOf(PriceRule, inp));
  }

  /** What a request that passed the PUT chains guarantees the handler. */
  lemma UpdateFieldsPassed(segment: string, body: Fields)
    requires RunRules(UpdateRules, Inputs(Some(segment), body)) == []
    ensures IntText(segment)
    ensures "name" in body && Passes(NotEmpty, Some(body["name"]))
    ensures "price" in body && Passes(IsNumeric, Some(body["price"]))
    ensures Passes(GreaterThanZero, Some(body["price"]))
    ensures "availability" in body && Passes(IsBoolean, Some(body["availability"]))
  {
    var inp := Inputs(Some(segment), body);
    RunRulesEmpty(UpdateRules, inp);
    assert RulePasses(UpdateRules[0], inp);
    assert RulePasses(UpdateRules[1], inp);
    assert RulePasses(UpdateRules[2], inp);
    assert RulePasses(UpdateRules[3], inp);
    assert Passes(IdRule.chain[0].check, ValueOf(IdRule, inp));
    assert Passes(PriceRule.chain[0].check, ValueOf(PriceRule, inp));
    assert Passes(PriceRule.chain[2].check, ValueOf(PriceRule, inp));
    assert Passes(AvailabilityRule.chain[0].check, ValueOf(AvailabilityRule, inp));
  }

  /**
   The handler stage, reached only once the gate has let the request through.
   The id segment, already known to be integer text, is read as the key the
   store is asked for; the price and availability are read as the values the
   store keeps.
   */
  function Run(db: Db, route: Route, body: Fields): (o: Outcome)
    requires WellFormed(db)
    requires Violations(route, body) == []
    ensures WellFormed(o.db)
    ensures !o.reply.PassedOn?
    ensures o.reply.Sent? ==> o.reply.status in {200, 201, 404}
    ensures o.reply.Sent? && o.reply.status == 404 ==> o.db == db
    ensures o.reply.Failed? ==> route == PostRoute && o.db == db
  {
    match route
    case ListRoute => GetProducts(db)
    case GetRoute(s) => GetProductById(db, IntValue(s))
    case PostRoute =>
      CreateFieldsPassed(body);
      CreateProduct(db, body["name"], PriceOf(body["price"]), Lookup(body, "availability"))
    case PutRoute(s) =>
      UpdateFieldsPassed(s, body);
      UpdateProduct(db, IntValue(s), body["name"], PriceOf(body["price"]), BoolOf(body["availability"]))
    case PatchRoute(s) => UpdateProductAvailability(db, IntValue(s))
    case DeleteRoute(s) => DeleteProduct(db, IntValue(s))
  }

  /** The whole pipeline: route, validate, gate, then look up, mutate and respond. */
  function Handle(db: Db, req: Request): (o: Outcome)
    requires WellFormed(db)
    ensures WellFormed(o.db)
  {
    match Dispatch(req)
    case None => Outcome(db, PassedOn)
    case Some(route) =>
      match Gate(Violations(route, req.body))
      case Some(reply) => Outcome(db, reply)
      case None => Run(db, route, req.body)
  }
}
