/**
 What each command answers and leaves on the book, case by case, from the request and the book before
 it. The cases are spelled out here once more and do not lean on the predicates of the commands.
 */
module Effects {
  import opened Types
  import opened Ladders
  import opened Books
  import opened Matching
  import opened Commands
  import opened Events
  import opened FillOrKill

  // ---- Adding an order -------------------------------------------------------------------

  /** A resting order on the other side is at the request's price or at a better one. */
  ghost predicate WouldTrade(b: Book, r: Request) {
    exists y {:trigger y in Tickets(b)} :: y in Tickets(b) && y.terms.side != r.side
      && if r.side == Buy then y.terms.price <= r.price else y.terms.price >= r.price
  }

  /** The code of an add, in the order in which the checks are made; the first group is refused before it matches. */
  ghost predicate AnswersAdd(b: Book, r: Request, code: ErrorCode)
    requires BookOk(b)
  {
    if r.matching != Standard then code == InvalidRequest
    else if Kills(b, r) then code == InsufficientLiquidity
    else if r.kind == Limit && r.flags.postOnly && WouldTrade(b, r) then code == PostOnlyViolation
    else if r.quantity <= Crossing(b, r) then code == Success
    else match r.tif
      case IOC | FOK => code == Success
      case GTD | ATO => code == NotImplemented
      case ATC => code == UnsupportedTimeInForce
      case Day | GTC => code == if r.kind == Market then InvalidOrderCombination else Success
  }

  /** The request gets past the checks that are made before it takes an id. */
  ghost predicate GetsAnId(b: Book, r: Request)
    requires BookOk(b)
  {
    r.matching == Standard && !Kills(b, r) && !(r.kind == Limit && r.flags.postOnly && WouldTrade(b, r))
  }

  lemma IdIffAccepted(b: Book, r: Request)
    requires BookOk(b)
    ensures GetsAnId(b, r) <==> Accepts(b, r)
  {
    hide LadderOk, TicketsOk, Kills, PostOnlyBlocks;
    BlockedIff(b, r);
  }

  lemma AddAnswered(b: Book, r: Request)
    requires BookOk(b)
    ensures AnswersAdd(b, r, AddOrder(b, r).code)
  {
    hide LadderOk, TicketsOk, Kills, PostOnlyBlocks, MatchOf, AfterMatch, Insert, Crossing;
    BlockedIff(b, r);
    if Accepts(b, r) {
      AcceptedFills(b, r);
      TakerTerms(b, r);
    }
  }

  lemma RestedOnSide(b: Book, r: Request)
    requires BookOk(b) && Accepts(b, r)
    ensures BookOk(Settled(b, r))
    ensures forall x: Ticket {:trigger x in Tickets(Settled(b, r))} :: x.terms.side == r.side ==>
              (x in Tickets(Settled(b, r)) <==> x in Tickets(b) || x in Rested(b, r))
  {
    hide LadderOk, TicketsOk, Rested, Settled, MatchOf;
    SettledKeeps(b, r);
    MatchKeeps(b, r);
    var d := Settled(b, r);
    SidesOk(b);
    SidesOk(d);
    forall x: Ticket | x.terms.side == r.side ensures x in Tickets(d) <==> x in Tickets(b) || x in Rested(b, r) {
      assert x in Elems(Ladder(d, r.side)) <==> x in Tickets(d);
      assert x in Elems(Ladder(b, r.side)) <==> x in Tickets(b);
    }
  }

  /** What is left of a request that takes an id, if it is for the day or good till cancelled and no market order. */
  ghost function LeftToRest(b: Book, r: Request): set<Ticket>
    requires BookOk(b)
  {
    if GetsAnId(b, r) && Crossing(b, r) < r.quantity && (r.tif == Day || r.tif == GTC) && r.kind != Market
    then {Ticket(b.nextId, r, r.quantity - Crossing(b, r))}
    else {}
  }

  lemma RestedIsLeft(b: Book, r: Request)
    requires BookOk(b) && Accepts(b, r)
    ensures Rested(b, r) == LeftToRest(b, r)
  {
    hide LadderOk, TicketsOk, Accepts, MatchOf, Crossing, GetsAnId, AddOrder;
    IdIffAccepted(b, r);
    AcceptedFills(b, r);
    TakerTerms(b, r);
  }

  /**
   What is left to rest joins the book, and nothing else does; the other orders of its side are not
   touched. An id is used exactly when the request gets past the checks.
   */
  lemma AddRests(b: Book, r: Request)
    requires BookOk(b)
    ensures var d := AddOrder(b, r).book;
            forall x: Ticket {:trigger x in Tickets(d)} :: x.terms.side == r.side ==>
              (x in Tickets(d) <==> x in Tickets(b) || x in LeftToRest(b, r))
    ensures AddOrder(b, r).book.nextId == if GetsAnId(b, r) then b.nextId + 1 else b.nextId
  {
    hide LadderOk, TicketsOk, Tickets, Accepts, Rested, Settled, AddOrder;
    IdIffAccepted(b, r);
    AddKeeps(b, r);
    AddSettles(b, r);
    if Accepts(b, r) {
      RestedIsLeft(b, r);
      RestedOnSide(b, r);
    }
  }

  // ---- Cancelling and shrinking ----------------------------------------------------------

  /** A client's own resting order goes; any other cancel changes nothing. */
  lemma CancelTakesOut(b: Book, client: ClientID, id: OrderID)
    requires BookOk(b)
    ensures var o := CancelOrder(b, client, id);
            if id in b.index && Lookup(b, id).terms.client == client
            then o.code == Success && Tickets(o.book) == Tickets(b) - {Lookup(b, id)} && o.book.nextId == b.nextId
            else o.code == (if id in b.index then Unauthorized else InvalidCancel) && o.book == b
  {
    hide LadderOk, TicketsOk, Remove;
    if id in b.index {
      RemoveKeeps(b, Lookup(b, id));
    }
  }

  /**
   An owner's change to the same price and no larger quantity sets what is left of the order, keeps
   its id and makes no fill.
   */
  lemma ModifyInPlace(b: Book, client: ClientID, id: OrderID, quantity: Quantity)
    requires BookOk(b) && id in b.index && Lookup(b, id).terms.client == client
    requires quantity <= Lookup(b, id).remaining
    ensures var x := Lookup(b, id);
            var o := ModifyOrder(b, client, id, x.terms.price, quantity);
            && o.code == Success && o.fills == [] && o.book.nextId == b.nextId
            && Tickets(o.book) == Tickets(b) - {x} + {x.(remaining := quantity)}
  {
    hide LadderOk, TicketsOk, Shrink;
    var x := Lookup(b, id);
    if quantity < x.remaining {
      ShrinkKeeps(b, x, quantity);
    } else {
      assert x.(remaining := quantity) == x;
    }
  }
}
