/** The order object: what it was created with never changes, only what is left of it does. */
module Orders {
  import opened Types

  class Order {
    const id: OrderID
    const terms: Request
    var remaining: Quantity

    constructor (id: OrderID, terms: Request)
      ensures View() == Ticket(id, terms, terms.quantity)
    {
      this.id, this.terms := id, terms;
      remaining := terms.quantity;
    }

    /** The order as a value. */
    function View(): Ticket
      reads this
    {
      Ticket(id, terms, remaining)
    }

    predicate IsFilled()
      reads this
    {
      remaining == 0
    }

    /** Takes `quantity` off the order; asking for more than there is changes nothing. */
    method Fill(quantity: Quantity)
      modifies this
      ensures View() == old(View()).(remaining := old(remaining) - if quantity <= old(remaining) then quantity else 0)
    {
      if quantity > remaining {
        return;
      }
      remaining := remaining - quantity;
    }

    /** Sets what remains, and returns the new value minus the former one in 64-bit arithmetic. */
    method UpdateQuantity(quantity: Quantity) returns (diff: Quantity)
      modifies this
      ensures View() == old(View()).(remaining := quantity)
      ensures diff == Wrap(quantity - old(remaining))
    {
      diff := Wrap(quantity - remaining);
      remaining := quantity;
    }
  }
}
