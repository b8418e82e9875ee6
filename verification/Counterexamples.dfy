/**
 Sessions in which the engine does not do what one would expect, or what its documentation says.
 When each of these things happens is decided exactly elsewhere; here is one input for each.
 */
module Counterexamples {
  import opened Types
  import opened Ladders
  import opened Books
  import opened Matching
  import opened Commands
  import opened FillOrKill

  const PLAIN := Flags(false, false, false)
  const HIDDEN := Flags(true, false, false)

  /** An offer of 10 at 100, which is the first order of every session here. */
  function Offer(flags: Flags): Request {
    Request(1, 100, 10, Sell, Limit, GTC, Standard, flags)
  }

  function Bid(quantity: Quantity, kind: OrderType, tif: TimeInForce): Request {
    Request(2, 100, quantity, Buy, kind, tif, Standard, PLAIN)
  }

  function RestingOffer(flags: Flags): Ticket {
    Ticket(1, Offer(flags), 10)
  }

  /** The book with nothing but the offer, after `left` of it is left over with a volume of `volume`. */
  function Offered(flags: Flags, left: Quantity, volume: Quantity): Book {
    Book([], [Level(100, volume, [RestingOffer(flags).(remaining := left)])], map[1 := Home(Sell, 100)], 2)
  }

  lemma OfferRests(flags: Flags)
    ensures BookOk(EMPTY)
    ensures Apply(EMPTY, Add(Offer(flags))).book == Offered(flags, 10, if flags.hidden then 0 else 10)
  {
    StartOk();
  }

  lemma OneLevelQueue(l: Level<Ticket>)
    ensures Queue([l]) == l.orders
  {
    QueueCons(l, []);
    assert l.orders + [] == l.orders;
    assert [l] + [] == [l];
  }

  lemma OneCommand(cmd: Command)
    ensures BookOk(EMPTY) && Session([cmd]).book == Apply(EMPTY, cmd).book
  {
    StartOk();
    ApplyKeeps(EMPTY, cmd);
    assert [cmd][1..] == [] && Run(START, [cmd]) == Run(Step(START, cmd), []);
  }

  lemma TwoCommands(first: Command, second: Command)
    ensures BookOk(EMPTY) && BookOk(Apply(EMPTY, first).book)
    ensures Session([first, second]).book == Apply(Apply(EMPTY, first).book, second).book
  {
    StartOk();
    ApplyKeeps(EMPTY, first);
    var mid, tail := Step(START, first), [second];
    assert [first, second][1..] == tail && tail[1..] == [];
    ApplyKeeps(mid.book, second);
    assert Run(mid, tail) == Run(Step(mid, second), tail[1..]);
  }

  // ---- The offer, shrunk in place --------------------------------------------------------

  function ShrunkOffer(left: Quantity): seq<Command> {
    [Add(Offer(PLAIN)), Modify(1, 1, 100, left)]
  }

  lemma OfferIsFound(b: Book)
    requires b == Offered(PLAIN, 10, 10) && BookOk(b)
    ensures RestingOffer(PLAIN) in Tickets(b) && 1 in b.index && Lookup(b, 1) == RestingOffer(PLAIN)
  {
    OneLevelQueue(b.asks[0]);
    assert RestingOffer(PLAIN) in Elems(b.asks);
    UniqueIds(b, RestingOffer(PLAIN), Lookup(b, 1));
  }

  lemma ShrinkRaisesVolume(b: Book, left: Quantity)
    requires b == Offered(PLAIN, 10, 10) && BookOk(b) && RestingOffer(PLAIN) in Tickets(b) && left < 10
    ensures Shrink(b, RestingOffer(PLAIN), left) == Offered(PLAIN, left, 20 - left)
  {
    var x := RestingOffer(PLAIN);
    TwoSides(b, x);
    assert IndexOf([x], x) == 0;
    assert [x][0 := x.(remaining := left)] == [x.(remaining := left)];
    assert LowerBound(b.asks, Sell, 100) == 0;
    assert Wrap(10 + ShrinkDelta(x, left)) == 20 - left;
  }

  /** Shrinking the offer of 10 to `left` leaves a volume of `20 - left`. */
  lemma ShrunkLevel(left: Quantity)
    requires left < 10
    ensures Session(ShrunkOffer(left)).book == Offered(PLAIN, left, 20 - left)
  {
    var b := Offered(PLAIN, 10, 10);
    OfferRests(PLAIN);
    TwoCommands(Add(Offer(PLAIN)), Modify(1, 1, 100, left));
    OfferIsFound(b);
    ShrinkRaisesVolume(b, left);
  }

  /** An order that has been reduced to nothing still rests. */
  lemma EmptiedStays()
    ensures var b := Session(ShrunkOffer(0)).book;
            Ticket(1, Offer(PLAIN), 0) in Tickets(b) && 1 in b.index
  {
    ShrunkLevel(0);
    OneLevelQueue(Offered(PLAIN, 0, 20).asks[0]);
    assert Ticket(1, Offer(PLAIN), 0) in Elems(Offered(PLAIN, 0, 20).asks);
  }

  // ---- Orders against the offer ----------------------------------------------------------

  lemma OfferCrossing(b: Book, left: Quantity, flags: Flags, volume: Quantity, r: Request)
    requires b == Offered(flags, left, volume) && r.side.Buy? && r.price == 100
    ensures Crossing(b, r) == left
    ensures Facing(b, r) == b.asks && Available(b.asks, r, 0) == volume
  {
    var q, t := Queue(b.asks), Taker(b, r);
    OneLevelQueue(b.asks[0]);
    assert TicketCrosses(t, 100) && q[1..] == [] && Liquidity([], t) == 0;
    assert Liquidity(q, t) == left + Liquidity(q[1..], t);
    assert Available(b.asks[1..], r, volume) == volume;
  }

  /** The scan trusts the raised volume of 14, and a fill-or-kill for 12 is filled for 6 and accepted. */
  lemma PromiseBroken()
    ensures var b, r := Session(ShrunkOffer(6)).book, Bid(12, Limit, FOK);
            !AllOrNothing(b, r) && Volume(AddOrder(b, r).fills) == 6 && AddOrder(b, r).code == Success
  {
    ShrunkLevel(6);
    var b, r := Offered(PLAIN, 6, 14), Bid(12, Limit, FOK);
    OfferCrossing(b, 6, PLAIN, 14, r);
    assert Accepts(b, r);
    AcceptedFills(b, r);
    AllOrNothingIff(b, r);
    TakerTerms(b, r);
  }

  /** A hidden offer of 10 shows no volume, and a fill-or-kill for 10 is killed in front of it. */
  lemma KilledInFrontOfHidden()
    ensures var b, r := Session([Add(Offer(HIDDEN))]).book, Bid(10, Limit, FOK);
            Crossing(b, r) == 10 && AddOrder(b, r) == Outcome(b, InsufficientLiquidity, [], [])
  {
    OneCommand(Add(Offer(HIDDEN)));
    OfferRests(HIDDEN);
    OfferCrossing(Offered(HIDDEN, 10, 0), 10, HIDDEN, 0, Bid(10, Limit, FOK));
  }

  /** A day order at market takes the offer of 10 before it is rejected for the 2 it could not get. */
  lemma RejectedAfterTrading()
    ensures var b, r := Session([Add(Offer(PLAIN))]).book, Bid(12, Market, Day);
            Volume(AddOrder(b, r).fills) == 10 && AddOrder(b, r).code == InvalidOrderCombination
  {
    OneCommand(Add(Offer(PLAIN)));
    OfferRests(PLAIN);
    var b, r := Offered(PLAIN, 10, 10), Bid(12, Market, Day);
    OfferCrossing(b, 10, PLAIN, 10, r);
    assert Accepts(b, r);
    AcceptedFills(b, r);
    TakerTerms(b, r);
  }
}
