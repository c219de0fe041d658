/** The pricing step of the order workflow (`calculateTotal` in handler.js). */
module Pricing {

  /** The total the pricing step reports for every order. */
  const StubTotal: int := 100

  /** The pricing step: its input event is not consulted. */
  function CalculateTotal<Event>(event: Event): int {
    StubTotal
  }

  /** Every order is priced at 100, whatever the book, its price or the quantity. */
  lemma CalculateTotalIgnoresOrder<Event>(first: Event, second: Event)
    ensures CalculateTotal(first) == CalculateTotal(second) == 100
  {
  }
}
