/** The value types of the engine: sides, order attributes, error codes, and 64-bit quantities. */
module Types {

  // Prices are only compared, never computed with, so an unbounded integer is exact.

  type Price = int
  type OrderID = nat
  type ClientID = nat
  type TradeID = nat
  const TWO_TO_THE_64: int := 0x1_0000_0000_0000_0000

  /** An unsigned 64-bit quantity; all arithmetic on it wraps. */
  type Quantity = q: int | 0 <= q < 0x1_0000_0000_0000_0000

  /** The 64-bit value that an exact integer wraps to. */
  function Wrap(x: int): (q: Quantity)
    ensures 0 <= x < TWO_TO_THE_64 ==> q == x
  {
    x % 0x1_0000_0000_0000_0000
  }

  /** Wrapping early or late makes no difference. */
  lemma WrapAbsorbs(x: int, d: int)
    ensures Wrap(Wrap(x) + d) == Wrap(x + d)
  {
    var k := x / 0x1_0000_0000_0000_0000;
    assert Wrap(x) + d == (x + d) - k * 0x1_0000_0000_0000_0000;
  }

  function Min(a: Quantity, b: Quantity): (m: Quantity) {
    if b < a then b else a
  }

  datatype Side = Buy | Sell {
    function Opposite(): Side {
      if Buy? then Sell else Buy
    }
  }

  datatype OrderType =
    Limit | Market | Complex | Stop | StopLimit | MarketIfTouched | LimitIfTouched | Pegged

  datatype TimeInForce = GTC | Day | IOC | FOK | GTD | ATO | ATC

  datatype MatchType = Standard | Midpoint | HiddenLiquidity | Auction

  datatype Flags = Flags(hidden: bool, iceberg: bool, postOnly: bool)

  datatype ErrorCode =
    | Success
    | InvalidRequest
    | InvalidModify
    | InvalidCancel
    | InsufficientLiquidity
    | PostOnlyViolation
    | InvalidOrderCombination
    | NotImplemented
    | UnsupportedTimeInForce
    | Unauthorized

  /** What a client asks for when adding an order. */
  datatype Request = Request(client: ClientID, price: Price, quantity: Quantity, side: Side,
                             kind: OrderType, tif: TimeInForce, matching: MatchType, flags: Flags)

  /** The value of an order at one instant: what was asked for, and how much of it is still open. */
  datatype Ticket = Ticket(id: OrderID, terms: Request, remaining: Quantity)

  datatype Command =
    | NoCommand
    | Add(request: Request)
    | Modify(client: ClientID, id: OrderID, price: Price, quantity: Quantity)
    | Cancel(client: ClientID, id: OrderID)

  /** One execution: both orders as they stood just before it, and the quantity exchanged. */
  datatype Fill = Fill(taker: Ticket, maker: Ticket, quantity: Quantity)

  /** What happens to quantities and levels, in order; the history of a book. */
  datatype Action =
    | Issued(ticket: Ticket)                      // an order enters, with its full quantity
    | Traded(fill: Fill)
    | Withdrawn(id: OrderID, quantity: Quantity)  // a cancel, or a remainder that does not rest
    | Reduced(ticket: Ticket, quantity: Quantity) // a resting order shrinks in place by `quantity`
    | Opened(side: Side, price: Price)            // a price level is created

  /** Whether `a` is a strictly better price than `b` on the side `s` of the book. */
  predicate Better(s: Side, a: Price, b: Price) {
    if s == Buy then a > b else a < b
  }

  /** Whether an incoming order may trade against the price `p` on the other side. */
  predicate Crosses(side: Side, kind: OrderType, limit: Price, p: Price) {
    kind == Market || (if side == Buy then p <= limit else limit <= p)
  }

  /** Price-time priority between resting orders of the side `s`: better price, then lower id. */
  predicate Before(s: Side, x: Ticket, y: Ticket) {
    Better(s, x.terms.price, y.terms.price) || (x.terms.price == y.terms.price && x.id < y.id)
  }
}
