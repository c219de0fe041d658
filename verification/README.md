# Inventory check of the book-order workflow

This project models the one piece of logic in the order workflow's Lambda
handlers (`handler.js`): the inventory check that starts an order, and the
pricing step that follows it.

- `checkInventory` queries the `books` table for the requested `bookId`,
  takes the first item of the result and accepts the order only when the
  stock left after taking the requested quantity is strictly positive. It
  returns the book record unchanged, or throws an error named
  `BookOutOfStock` or `BookNotFound`. The `catch` block rethrows an error
  named `BookOutOfStock` untouched and re-tags every other error, a failed
  query or the `TypeError` raised when the result is empty, as
  `BookNotFound`.
- `calculateTotal` is a stub that prices every order at 100.

Modules:

- `JsErrors` (`js_errors.dfy`): JavaScript error objects (`name`, `message`),
  the way a block completes (`Normal` or `Throw`), and
  `Error.prototype.toString`, which `new Error(error)` uses to build the
  message of the re-tagged error (ECMAScript 2024, section 20.5.3.4).
- `Outcomes` (`outcomes.dfy`): the `Result` type.
- `Inventory` (`inventory.dfy`): the book record, the query outcome
  (`QueryFailed(cause)` or `Items(items)`), `IsBookAvailable`, the handler as
  JavaScript runs it (`TryBlock`, `CatchBlock`, `Handler`), and the same
  outcome in a closed error taxonomy (`CheckInventory`: `Ok(book)`,
  `Err(BookOutOfStock)` or `Err(BookNotFound)`).
- `BookTable` (`book_table.dfy`): the key condition `bookId = :bookId`
  evaluated against a snapshot of the table, and the check run against that
  snapshot.
- `Pricing` (`pricing.dfy`): `calculateTotal`.

The database read is an input: the handler receives either the SDK's error or
the items the query returned. Quantities are mathematical integers.

The check refuses an order for exactly the remaining stock
(`quantity - requested > 0`), and `calculateTotal` ignores price and
quantity.

The `catch` block selects on the error's name string. An SDK error whose name
were `BookOutOfStock` would therefore leave the handler unchanged and be read
as out of stock. The AWS SDK does not use that name, but the model keeps the
case (`QueryFailureNamedOutOfStockPassesThrough`) rather than assume it away.
So "a failed query is BookNotFound" is stated for every SDK error not named
`BookOutOfStock`.

## Model

| member | source | states |
|---|---|---|
| `JsErrors.ErrorToString` | handler.js:40 | the message of the re-tagged error starts with the caught error's name and ends with its message; both present are joined by a two-character separator; it is empty only when both are |
| `Inventory.Handler` | handler.js:12-47 | the handler returns exactly when the first item exists and its stock strictly exceeds the request, and then returns that item unmodified; any thrown error is named BookOutOfStock or BookNotFound; it is BookOutOfStock exactly when the first item falls short or the SDK error already had that name, and is then the very error thrown |
| `Inventory.CheckInventory` | handler.js:12-47 | the three-way outcome: `Ok` exactly when the first item's stock exceeds the request, carrying that item; `BookOutOfStock` exactly when the first item falls short (or the query error carries that name); `BookNotFound` exactly when the query failed or returned nothing (except for that name) |
| `Inventory.TaxonomyMatchesThrownNames` | handler.js:31-42 | the handler throws exactly when the closed-taxonomy check reports an error, and the thrown error's name is the distinct tag of that error kind |
| `Inventory.AvailableIffStockExceedsRequest` | handler.js:8-10 | the availability check holds exactly when stock is strictly greater than the request |
| `Inventory.ExactDepletionRejected` | handler.js:8-33 | an order for exactly the remaining stock is refused with BookOutOfStock |
| `Inventory.AnyRequestBelowStockSucceeds` | handler.js:8-29 | the request is not validated on its own: any request below the stock, zero or negative included, returns the first item |
| `Inventory.OutOfStockPassesThroughCatch` | handler.js:28-38 | when the first item falls short, the try block throws the out-of-stock error and the catch block rethrows that same error unchanged |
| `Inventory.QueryFailureIsNotFound` | handler.js:24-43 | a failed query becomes BookNotFound whose message renders the SDK error, starting with its name; never success or BookOutOfStock |
| `Inventory.QueryFailureNamedOutOfStockPassesThrough` | handler.js:36-38 | an SDK error already named BookOutOfStock is rethrown as it is and reads as out of stock |
| `Inventory.EmptyResultIsNotFound` | handler.js:25-43 | an empty result makes the quantity read throw a TypeError, which becomes BookNotFound for every request |
| `Inventory.OnlyFirstItemMatters` | handler.js:25-29 | items after the first do not affect the handler's outcome |
| `Inventory.RequestMonotone` | handler.js:8-33 | a smaller request succeeds whenever a larger one does, with the same book; a larger request is out of stock whenever a smaller one is; BookNotFound does not depend on the request |
| `BookTable.Query` | handler.js:15-24 | the query result holds exactly the table's records with the requested id, each as often as the table holds it, and no more items than the table |
| `BookTable.QueryEmptyIffUnlisted` | handler.js:15-25 | the query returns no item exactly when no record carries the id |
| `BookTable.QueryHeadIsFirstListed` | handler.js:15-25 | `Items[0]` is the first record of the table with the requested id |
| `BookTable.FindFirstListed` | handler.js:24-25 | computes `Items[0]` of the query: finds the first record with the requested id, or reports that none exists |
| `BookTable.CheckStock` | handler.js:15-43 | against a table snapshot, a success is a record of the table with the requested id and stock above the request; BookNotFound happens exactly when no record has the id; BookOutOfStock means the first such record has stock at most the request |
| `Pricing.CalculateTotalIgnoresOrder` | handler.js:49-50 | the pricing step returns 100 for every input |

## Left out

- The SDK client set-up and the network call of the query (handler.js:3-5, 24): the query outcome is an input; `BookTable` evaluates the key condition on a table snapshot instead.
- The `console.log` calls (handler.js:13, 23, 27): logging only.
- The asynchronous nature of the handlers: each is a pure function of its input.
- JavaScript values other than integers and an event that is not an object: a null or undefined event makes the destructuring at handler.js:12, outside the `try`, throw a TypeError that escapes without being re-tagged; a record without `quantity` (which gives `NaN` and so BookOutOfStock), non-numeric or fractional requests and floating-point rounding are not modelled; `quantity` is an `int`.
- The order of a key's records: the snapshot is assumed to list them in the order the query returns them (sort-key order in DynamoDB; at most one record when `bookId` is the whole key).
- The exact wording of the runtime's TypeError message: it is a constant here; only the name `TypeError` influences the outcome.
- The error's stack and other properties of JavaScript `Error` objects: only `name` and `message` are kept.
- Points redemption, billing, courier assignment, compensations and the workflow wiring: they are not part of `handler.js`.
