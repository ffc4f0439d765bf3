# Product API request pipeline

This project models the request pipeline of a small REST API over one `Product` resource. The pipeline is routed by `src/router.ts` and handled by `src/handlers/product.ts`. For each request it does five things:

1. picks the route;
2. runs the route's validation chains (express-validator `param`/`body` checks);
3. answers 400 with every violation through the input-error gate (`handleInputErrors`);
4. looks up the addressed product and answers 404 when it is absent;
5. mutates the table and answers with `{data: ...}`.

`Router.Handle(db, req)` is the whole pipeline as one pure function. It returns the table afterwards together with the reply.

The table is a `map<int, Product>` plus the value the auto-increment sequence hands out next (`Store.Db`).

Request bodies are maps from field names to a small JSON value type:

- `JNull`
- `JBool`
- `JNum`, whose numbers are `real`
- `JStr`

Modules, one per part of the program:

- `Wrappers`: `Option`.
- `Text`: integer and numeric text, and decimal rendering of ids.
- `JsonValue`: the JSON values.
- `Validation`: checks, chains, rules, the messages and the chains of each route.
- `Store`: rows and table.
- `Listing`: the listing query.
- `Handlers`: the six handlers.
- `Router`: route table, gate, dispatch.
- `Pipeline`: properties of the whole pipeline.

Three facts about the router code shape the model:

- **`notEmpty` does not trim.** A name of spaces passes the name check.
- **No chain bails.** Every failing check reports its own violation, so an absent price gives three violations.
- **PUT requires `availability`.** Its `isBoolean` check has no optional marker.

The stand-ins for express-validator's checks are:

- **`isInt`:** text that is an optional sign followed by one or more decimal digits. A number passes when it is whole and JavaScript writes it in fixed notation.
- **`isNumeric`:** text matching `[+-]?([0-9]*[.])?[0-9]+`. A number passes when JavaScript writes it in fixed notation; one it writes with an exponent (such as `1e-7`) fails, as its text has an `e`.
- **`notEmpty`:** rejects an absent value, `null` and `""`.
- **`isBoolean`:** accepts a boolean, the strings `"true"`, `"false"`, `"0"`, `"1"` and the numbers 0 and 1.
- **custom `value > 0`:** a number is compared as itself and a boolean as 0 or 1. Text is compared as the number it denotes only when it matches the `isNumeric` pattern; any other text counts as not above zero (see `Validation.Passes` under Left out).

## Model

| member | source | states |
|---|---|---|
| Validation.ChainReports | src/router.ts:128-131 | A chain without `bail` runs every check and reports, in order, exactly one violation per failing check, carrying that check's message under the chain's location and field, and nothing for a passing check. |
| Validation.FailingComplete | src/router.ts:128-131 | Every failing check is among the failing positions a chain reports for. |
| Validation.ChainVerdicts | src/router.ts:128-131 | A chain reports nothing exactly when every check passes. It reports one violation per check exactly when every check fails. Each failing check's message is among its violations, and every violation carries the chain's location and field. |
| Validation.RunRulesEmpty | src/router.ts:183-199 | A route's chains report nothing exactly when every check of every chain passes on its field. |
| Validation.NumericPriceViolations | src/router.ts:191-194 | A numeric price gives no violation when it is above zero. When it is not, the price chain reports exactly the list `[body price "El precio no es válido."]`. |
| Validation.MissingPriceViolations | src/router.ts:191-194 | An absent price fails all three price checks. The chain reports exactly the invalid-price, required-price and invalid-price messages, in that order. |
| Validation.PriceOf | src/handlers/product.ts:37-60 | A stand-in for how `Product.create` and `product.update` store a validated price: a number as itself and numeric text as the decimal it denotes. Since the custom `> 0` check reads text the same way, the stored price is above zero whenever that check passed. The lemma proves this choice consistent; it is not a fact about the database's column coercion. |
| Text.ShowParses | src/router.ts:83 | The decimal rendering of any natural id passes `isInt` and denotes that same id. |
| Text.WitnessedSegments | src/handlers/__test__/product.test.ts:86-109 | "not-valid-id" fails `isInt`; "1" and "2000" pass it and denote 1 and 2000. |
| Listing.SortByPriceDesc | src/handlers/product.ts:8-11 | The ordering is a permutation of its input (equal multisets) and is sorted by price, non-increasing. |
| Listing.TopByPrice | src/handlers/product.ts:8-16 | The listing has `min(50, size)` rows, each stored and each at most once, and is sorted by price descending. No omitted row is dearer than a listed one. A table of at most 50 rows is listed whole. |
| Handlers.GetProducts | src/handlers/product.ts:6-18 | On a table whose rows are stored under their own ids, the list answers 200 with the top listing (at most 50 distinct stored rows, dearest first) and leaves the table unchanged. |
| Handlers.GetProductById | src/handlers/product.ts:21-34 | A stored id answers 200 with its row. An absent id answers 404 "El producto no existe." with no data. The table is unchanged either way. |
| Handlers.CreateProduct | src/handlers/product.ts:37-42 | The new row gets an id not in the table, keeps the given name, price and availability (absent availability defaults to true), and leaves every other row untouched; the reply is 201 with that row. An availability the table cannot store fails with no change. |
| Handlers.UpdateProduct | src/handlers/product.ts:45-60 | A stored id has its name, price and availability overwritten, keeps its id and key set, and answers 200 with the new row; other rows are untouched. An absent id answers 404 with no change. |
| Handlers.UpdateProductAvailability | src/handlers/product.ts:63-79 | A stored row's availability is negated and its other fields are kept; the reply is 200 with the row and other rows are untouched. An absent id answers 404 with no change. |
| Handlers.DeleteProduct | src/handlers/product.ts:82-96 | A stored id is removed (the key set loses exactly it), other rows are untouched, and the reply is 200 "Success: Producto eliminado". An absent id answers 404 with no change. |
| Router.CreateFieldsPassed | src/router.ts:122-135 | A body that passed the POST chains has a non-empty name and a numeric price above zero. |
| Router.UpdateFieldsPassed | src/router.ts:183-201 | A request that passed the PUT chains has an integer id, a non-empty name, a numeric price above zero and a boolean-like availability. |
| Router.Handle | src/router.ts:52-277 | Over the whole route table, validation, gate and handlers, no request breaks the table's shape: ids stay positive, each row is stored under its own id, and the sequence stays past every id. This holds because create stores a row only under the sequence's next id, and update, patch and delete keep the key of the row they touch. |
| Router.Run | src/router.ts:87 | The handler slot of every route (also lines 135, 201, 238 and 276), reached once the chains report nothing. It keeps the table's shape. It always answers: 200, 201 or 404, or a failure. A 404 leaves the table unchanged, and only create can fail, also without change. The id segment stands for the key `findByPk` is given. The price is stored as `Validation.PriceOf` reads it, and an absent availability is passed to create, which defaults it. |
| Pipeline.MalformedIdRejected | src/router.ts:82-88 | GET, PATCH or DELETE of a non-integer segment answers 400 with the single error "ID no válido." and leaves the table unchanged. |
| Pipeline.PutMalformedIdOnly | src/router.ts:183-199 | A PUT with a valid body on a non-integer segment reports exactly one error, the id's. |
| Pipeline.GateDecides | src/router.ts:199-201 | A routed request is answered 400 exactly when its chains report a violation. It is then answered with all of them, carries no data and leaves the table unchanged. With no violation the handler alone decides. |
| Pipeline.ErrorsLeaveTableAlone | src/handlers/product.ts:27-30 | Only a 200/201 answer can change the table: every 400, 404, unmatched or failed request leaves it as it was. |
| Pipeline.NonPositivePriceOneError | src/router.ts:191-194 | A POST or PUT with otherwise valid fields and a numeric price not above zero answers 400 with exactly one error and no change. |
| Pipeline.EmptyPutBody | src/router.ts:185-197 | A PUT with an empty body on an integer id answers 400 with five errors: none for id, one for name, three for price and one for availability. |
| Pipeline.PutChecksAvailability | src/router.ts:196-197 | A PUT whose availability is absent or not boolean-like is answered 400 with the availability error among the errors. |
| Pipeline.PostIgnoresAvailability | src/router.ts:122-137 | POST's violations do not depend on `availability`: replacing or removing it gives the same violations. |
| Pipeline.ListAlwaysAnswers | src/router.ts:52 | Every GET of the collection reaches the list handler and answers 200 with the top listing, with no change. |
| Pipeline.ValidatedPricePositive | src/router.ts:128-135 | Every body that passes the POST or PUT chains carries a numeric price whose stored value is above zero. |
| Pipeline.HandleKeepsSound | src/handlers/product.ts:37-60 | Starting from a table whose prices are all above zero and whose names are non-empty, every request keeps it so. |
| Pipeline.GetById | src/handlers/product.ts:21-34 | GET of the path of id n answers the row stored under n, or 404 with no data; the table is unchanged. |
| Pipeline.CreateThenGet | src/handlers/product.ts:37-42 | A valid POST stores its row under a fresh positive id and keeps every earlier row. A later GET of that id answers the created row. |
| Pipeline.EmptyTableSound | src/handlers/product.ts:37-42 | The empty table is well formed and sound, so the table-shape and soundness invariants hold from the start. |
| Pipeline.NameReported | src/router.ts:125-126 | A POST body whose name is absent or empty reports the violation "El nombre del producto es obligatorio.". |
| Pipeline.PostMissingName | src/handlers/__test__/product.test.ts:12-18 | A POST whose name is absent or empty answers 400 with the name error among its errors, carries no data and leaves the table unchanged. |
| Pipeline.PutMissingId | src/handlers/product.ts:47-53 | A valid PUT on an id with no row answers 404 "El producto no existe." and changes nothing. |
| Pipeline.PutOverwrites | src/handlers/product.ts:45-60 | A valid PUT on a stored id answers 200 with the row rebuilt from the body's name, price and availability under the same id. The key set and other rows are unchanged. |
| Pipeline.PutIdempotent | src/handlers/product.ts:56-57 | Repeating any PUT leaves the table as a single PUT leaves it. |
| Pipeline.PatchTwiceRestores | src/handlers/product.ts:63-79 | Any PATCH applied twice restores the original table. |
| Pipeline.PatchFlips | src/handlers/product.ts:73-77 | PATCH of a stored id answers 200 with the row whose availability is negated and whose id, name and price are kept. |
| Pipeline.DeleteRemoves | src/handlers/product.ts:82-96 | DELETE of a stored id removes exactly that key and confirms; a later GET or DELETE of it answers 404. An absent id answers 404 with no change. |
| Pipeline.MouseLifecycle | src/handlers/__test__/product.test.ts:42-48 | POST of `{name: "Mouse - TEST", price: 50, availability: false}` answers 201 with availability false. PATCH of its id answers 200 with availability true. DELETE confirms, and a later GET answers 404. |

## Left out

- Persistence. The Sequelize calls (`findAll`, `findByPk`, `create`, `update`, `save`, `destroy`) are replaced by map operations. The auto-increment id is the table's `nextId`. The model file (`src/models/Product.model`), with its column types, defaults and timestamp columns, is not part of this model.
- Handlers.CreateProduct: the table's column type checks are not modelled beyond `availability`. The name is stored as the JSON value sent. The program hands the whole body to `Product.create`, so a client-sent `id` or timestamp reaches the insert. The model ignores body keys other than name, price and availability and always assigns the sequence's next id.
- Handlers.CreateProduct: an availability the table cannot coerce to a boolean ends in a `Failed` reply. This stands for the unhandled rejection of `Product.create`; its HTTP status is not modelled.
- Listing.TopByPrice: rows of equal price are listed in ascending id order. The database leaves that order unspecified, so the contract states only the price order.
- express-validator and the body of `handleInputErrors` are library code that is not part of this model, so simple stand-ins replace them:
  - numbers are `real`, not IEEE doubles. Rounding and the exact point where JavaScript switches to exponent form are not modelled; `FixedNotation` is a stand-in for it;
  - JSON arrays and objects are not values of the model;
  - the error entries carry location, field and message only, not `type` or `value`.
- Validation.Passes: the custom `value > 0` check reads text only when it matches `isNumeric`'s pattern. JavaScript's `Number()` also reads text with surrounding whitespace, an exponent, a trailing point, hexadecimal digits or `Infinity`. The model counts such text as not above zero. So a price such as `"1e3"` or `" 5"` reports two violations here but only the `isNumeric` one in the program.
- Error order: the model fixes one order for violations. Within a chain they follow the order of its checks (`Validation.ChainReports`, `Validation.MissingPriceViolations`). Across chains they follow the order the route declares its chains (`Pipeline.EmptyPutViolations`). The gate answers with that list unchanged (`Pipeline.GateDecides`). The library's own reporting order is not part of this model, and the model does not claim that it matches. The properties taken from the tests (`Pipeline.EmptyPutBody`, `Pipeline.NonPositivePriceOneError`, `Pipeline.PostMissingName`, `Pipeline.PutChecksAvailability`) count violations per field or test membership, so they do not depend on the order.
- Express routing, HTTP transport, JSON headers and supertest. A request is a verb, a path and a body; an unmatched verb and path gives `PassedOn`.
- `src/config/swagger.ts` and the `@swagger` comments: they generate documentation and have no behaviour.
- `src/__tests__/server.test.ts`: it only does I/O (database connection and logging).
- Concurrency between requests, and persistence failures other than the create failure above.
- Test expectations that depend on seed data, such as product 1 being available before the PATCH test.
