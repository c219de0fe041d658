/**
 The inventory check of the order workflow (`isBookAvailable` and
 `checkInventory` in handler.js).

 The database read is not performed here: its outcome is an input, either a
 transport failure carrying the SDK's error or the items the query returned.
 The handler is modelled twice: `Handler` follows the JavaScript control flow
 (a try block whose errors are re-tagged by a catch block), and
 `CheckInventory` reports the same outcome in a closed error taxonomy.
 */
module Inventory {
  import opened Outcomes
  import opened JsErrors

  /** A record of the `books` table: its key, its stock and its other attributes. */
  datatype Book = Book(bookId: string, quantity: int, attributes: map<string, string>)

  /** What the query on the `books` table produced. */
  datatype QueryOutcome =
    | QueryFailed(cause: JsError)
    | Items(items: seq<Book>)

  /** The two ways the check can fail, as reported to the workflow. */
  datatype InventoryError = BookNotFound | BookOutOfStock

  const OutOfStockName: string := "BookOutOfStock"
  const NotFoundName: string := "BookNotFound"
  const OutOfStockMessage: string := "The book is out of stock"

  /**
   Message of the error raised by `book.quantity` when the query returned no
   item. The wording depends on the JavaScript engine; the handler only looks
   at the error's name.
   */
  const UndefinedQuantityMessage: string := "Cannot read properties of undefined (reading 'quantity')"

  /** The stock check: what is left after taking the request must be positive. */
  predicate IsBookAvailable(book: Book, quantity: int) {
    book.quantity - quantity > 0
  }

  /** The first item exists and its stock strictly exceeds the request. */
  predicate FirstItemInStock(outcome: QueryOutcome, quantity: int) {
    outcome.Items? && |outcome.items| > 0 && outcome.items[0].quantity > quantity
  }

  /** The first item exists and its stock does not exceed the request. */
  predicate FirstItemShort(outcome: QueryOutcome, quantity: int) {
    outcome.Items? && |outcome.items| > 0 && outcome.items[0].quantity <= quantity
  }

  /** There is no book to check: the query failed or returned no item. */
  predicate NoBook(outcome: QueryOutcome) {
    outcome.QueryFailed? || outcome.items == []
  }

  /**
   The body of the `try` block: take `Items[0]`, read its quantity and either
   return the item or throw the out-of-stock error. A failed query throws the
   SDK's error; reading `quantity` of a missing item throws a TypeError.
   */
  function TryBlock(outcome: QueryOutcome, quantity: int): Completion<Book> {
    match outcome
    case QueryFailed(cause) => Throw(cause)
    case Items(items) =>
      if |items| == 0 then Throw(JsError(TypeErrorName, UndefinedQuantityMessage))
      else if IsBookAvailable(items[0], quantity) then Normal(items[0])
      else Throw(JsError(OutOfStockName, OutOfStockMessage))
  }

  /**
   The `catch` block: an error named BookOutOfStock is rethrown as it is;
   any other error is wrapped in a new error named BookNotFound whose message
   is the caught error rendered as text.
   */
  function CatchBlock(c: Completion<Book>): Completion<Book> {
    match c
    case Normal(_) => c
    case Throw(e) =>
      if e.name == OutOfStockName then c
      else Throw(JsError(NotFoundName, ErrorToString(e)))
  }

  /** `checkInventory` as JavaScript runs it, once the query has completed. */
  function Handler(outcome: QueryOutcome, quantity: int): (c: Completion<Book>)
    // it returns exactly when the first item has stock strictly above the request,
    // and what it returns is that item, unmodified
    ensures c.Normal? <==> FirstItemInStock(outcome, quantity)
    ensures c.Normal? ==> c.value == outcome.items[0]
    // no error name other than the two tags escapes
    ensures c.Throw? ==> c.error.name == OutOfStockName || c.error.name == NotFoundName
    ensures (c.Throw? && c.error.name == OutOfStockName) <==>
      (FirstItemShort(outcome, quantity)
       || (outcome.QueryFailed? && outcome.cause.name == OutOfStockName))
    // a BookOutOfStock error is the one thrown in the try block, or the SDK's own error
    ensures c.Throw? && c.error.name == OutOfStockName ==>
      c.error == (if outcome.QueryFailed? then outcome.cause
                  else JsError(OutOfStockName, OutOfStockMessage))
  {
    CatchBlock(TryBlock(outcome, quantity))
  }

  /** Reads the name tag of a handler outcome as a closed error kind. */
  function Classify(c: Completion<Book>): Result<Book, InventoryError>
    requires c.Throw? ==> c.error.name == OutOfStockName || c.error.name == NotFoundName
  {
    match c
    case Normal(book) => Ok(book)
    case Throw(e) => if e.name == OutOfStockName then Err(BookOutOfStock) else Err(BookNotFound)
  }

  /**
   The inventory check as the workflow observes it: the book, or one of the
   two error kinds.
   */
  function CheckInventory(outcome: QueryOutcome, quantity: int): (r: Result<Book, InventoryError>)
    ensures r.Ok? <==> FirstItemInStock(outcome, quantity)
    ensures r.Ok? ==> r.value == outcome.items[0]
    ensures r == Err(BookOutOfStock) <==>
      FirstItemShort(outcome, quantity)
      || (outcome.QueryFailed? && outcome.cause.name == OutOfStockName)
    ensures r == Err(BookNotFound) <==>
      NoBook(outcome) && !(outcome.QueryFailed? && outcome.cause.name == OutOfStockName)
  {
    Classify(Handler(outcome, quantity))
  }

  /** The name tag the handler gives each error kind. */
  function TagOf(e: InventoryError): string {
    match e
    case BookNotFound => NotFoundName
    case BookOutOfStock => OutOfStockName
  }

  /**
   The closed taxonomy loses nothing: the handler throws exactly when the
   check reports an error, and the thrown name is the tag of that error kind.
   */
  lemma TaxonomyMatchesThrownNames(outcome: QueryOutcome, quantity: int)
    ensures Handler(outcome, quantity).Throw? <==> CheckInventory(outcome, quantity).Err?
    ensures CheckInventory(outcome, quantity).Err? ==>
      Handler(outcome, quantity).error.name == TagOf(CheckInventory(outcome, quantity).error)
    ensures TagOf(BookNotFound) != TagOf(BookOutOfStock)
  {
  }

  /** The stock check holds exactly when stock strictly exceeds the request. */
  lemma AvailableIffStockExceedsRequest(book: Book, quantity: int)
    ensures IsBookAvailable(book, quantity) <==> quantity < book.quantity
  {
  }

  /** An order that would take the last copies exactly is refused as out of stock. */
  lemma ExactDepletionRejected(book: Book, rest: seq<Book>, quantity: int)
    requires quantity == book.quantity
    ensures CheckInventory(Items([book] + rest), quantity) == Err(BookOutOfStock)
  {
  }

  /**
   The request is not validated on its own: any request below the stock,
   zero or negative included, returns the first item.
   */
  lemma AnyRequestBelowStockSucceeds(book: Book, rest: seq<Book>, quantity: int)
    requires quantity < book.quantity
    ensures CheckInventory(Items([book] + rest), quantity) == Ok(book)
  {
  }

  /**
   When the first item falls short, the error thrown in the try block leaves
   the catch block as it was thrown.
   */
  lemma OutOfStockPassesThroughCatch(book: Book, rest: seq<Book>, quantity: int)
    requires book.quantity <= quantity
    ensures TryBlock(Items([book] + rest), quantity) == Throw(JsError(OutOfStockName, OutOfStockMessage))
    ensures Handler(Items([book] + rest), quantity) == TryBlock(Items([book] + rest), quantity)
  {
  }

  /**
   A failed query is reported as BookNotFound, with the SDK's error kept as
   the message, never as success or BookOutOfStock.
   */
  lemma QueryFailureIsNotFound(cause: JsError, quantity: int)
    requires cause.name != OutOfStockName
    ensures Handler(QueryFailed(cause), quantity) == Throw(JsError(NotFoundName, ErrorToString(cause)))
    ensures cause.name <= Handler(QueryFailed(cause), quantity).error.message
    ensures CheckInventory(QueryFailed(cause), quantity) == Err(BookNotFound)
  {
  }

  /**
   The catch block selects by name only: an SDK error that happened to be
   named BookOutOfStock would be rethrown unchanged.
   */
  lemma QueryFailureNamedOutOfStockPassesThrough(cause: JsError, quantity: int)
    requires cause.name == OutOfStockName
    ensures Handler(QueryFailed(cause), quantity) == Throw(cause)
    ensures CheckInventory(QueryFailed(cause), quantity) == Err(BookOutOfStock)
  {
  }

  /**
   An empty query result makes `book.quantity` throw a TypeError, which the
   catch block turns into BookNotFound, whatever the request.
   */
  lemma EmptyResultIsNotFound(quantity: int)
    ensures Handler(Items([]), quantity) ==
      Throw(JsError(NotFoundName, TypeErrorName + ": " + UndefinedQuantityMessage))
    ensures CheckInventory(Items([]), quantity) == Err(BookNotFound)
  {
  }

  /** Only the first item of the query result is ever looked at. */
  lemma OnlyFirstItemMatters(book: Book, rest1: seq<Book>, rest2: seq<Book>, quantity: int)
    ensures Handler(Items([book] + rest1), quantity) == Handler(Items([book] + rest2), quantity)
  {
  }

  /**
   Asking for less never turns a success into a failure, asking for more never
   turns an out-of-stock answer into a success, and whether the book is found
   does not depend on the request.
   */
  lemma RequestMonotone(outcome: QueryOutcome, smaller: int, larger: int)
    requires smaller <= larger
    ensures CheckInventory(outcome, larger).Ok? ==>
      CheckInventory(outcome, smaller) == CheckInventory(outcome, larger)
    ensures CheckInventory(outcome, smaller) == Err(BookOutOfStock) ==>
      CheckInventory(outcome, larger) == Err(BookOutOfStock)
    ensures CheckInventory(outcome, smaller) == Err(BookNotFound) <==>
      CheckInventory(outcome, larger) == Err(BookNotFound)
  {
  }
}
