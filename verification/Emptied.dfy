/**
 Fully filled orders are removed, as promised, but an order can also be reduced to nothing in place,
 and then it stays. This module says exactly which commands break the rule that only orders with
 something left rest, and so in which sessions the rule holds throughout.
 */
module Emptied {
  import opened Types
  import opened Ladders
  import opened Books
  import opened Matching
  import opened Commands

  /** Every resting order has something left. */
  ghost predicate Positive(b: Book) {
    forall x {:trigger x in Tickets(b)} :: x in Tickets(b) ==> x.remaining > 0
  }

  /** An owner reduces an order to nothing without moving its price. */
  ghost predicate Empties(b: Book, cmd: Command)
    requires BookOk(b)
  {
    && cmd.Modify? && cmd.id in b.index && cmd.quantity == 0
    && var x := Lookup(b, cmd.id);
    x.terms.client == cmd.client && x.terms.price == cmd.price
  }

  /** Matching leaves only orders with something left, if it started from such. */
  lemma {:induction false} SweepPositive(q: seq<Ticket>, taker: Ticket)
    requires forall x: Ticket {:trigger x in q} :: x in q ==> x.remaining > 0
    ensures forall x: Ticket {:trigger x in Sweep(q, taker).left} :: x in Sweep(q, taker).left ==> x.remaining > 0
  {
    if taker.remaining == 0 || |q| == 0 || !TicketCrosses(taker, q[0].terms.price) {
    } else {
      var quantity := Min(taker.remaining, q[0].remaining);
      forall x: Ticket | x in q[1..] ensures x.remaining > 0 {
        assert x in q;
      }
      if quantity == q[0].remaining {
        SweepPositive(q[1..], AfterFill(taker, quantity));
      }
    }
  }

  lemma MatchPositive(b: Book, r: Request)
    requires BookOk(b) && Positive(b)
    ensures Positive(AfterMatch(b, r))
  {
    var ls, c := Facing(b, r), AfterMatch(b, r);
    MatchKeeps(b, r);
    MatchIsSweep(ls, Taker(b, r));
    forall x: Ticket | x in Queue(ls) ensures x.remaining > 0 {
      assert x in Elems(ls) && x in Tickets(b);
    }
    SweepPositive(Queue(ls), Taker(b, r));
    forall x | x in Tickets(c) ensures x.remaining > 0 {
      assert x in Elems(Ladder(b, r.side)) ==> x in Tickets(b);
    }
  }

  lemma AddPositive(b: Book, r: Request)
    requires BookOk(b) && Positive(b)
    ensures Positive(AddOrder(b, r).book)
  {
    hide LadderOk, AfterMatch, MatchLadder, TicketsOk, Settled;
    AddSettles(b, r);
    if Accepts(b, r) {
      MatchPositive(b, r);
      SettledKeeps(b, r);
    }
  }

  lemma CancelPositive(b: Book, client: ClientID, id: OrderID)
    requires BookOk(b) && Positive(b)
    ensures Positive(CancelOrder(b, client, id).book)
  {
    hide LadderOk, Remove;
    if id in b.index {
      RemoveKeeps(b, Lookup(b, id));
    }
  }

  lemma ShrinkPositive(b: Book, x: Ticket, quantity: Quantity)
    requires BookOk(b) && Positive(b) && x in Tickets(b) && quantity <= x.remaining
    ensures Positive(Shrink(b, x, quantity)) <==> quantity > 0
  {
    hide LadderOk, TicketsOk, Shrink;
    ShrinkKeeps(b, x, quantity);
    assert x.(remaining := quantity) in Tickets(Shrink(b, x, quantity));
  }

  lemma HasSomething(b: Book, x: Ticket)
    requires Positive(b) && x in Tickets(b)
    ensures x.remaining > 0
  {
  }

  lemma ModifyPositive(b: Book, client: ClientID, id: OrderID, price: Price, quantity: Quantity)
    requires BookOk(b) && Positive(b)
    ensures Positive(ModifyOrder(b, client, id, price, quantity).book)
        <==> !Empties(b, Modify(client, id, price, quantity))
  {
    hide LadderOk, TicketsOk, Shrink, Remove, AddOrder, Positive;
    if id in b.index {
      var x := Lookup(b, id);
      HasSomething(b, x);
      if price != x.terms.price || quantity > x.remaining {
        CancelKeeps(b, client, id);
        CancelPositive(b, client, id);
        AddPositive(CancelOrder(b, client, id).book, x.terms.(price := price, quantity := quantity));
      } else {
        ShrinkPositive(b, x, quantity);
      }
    }
  }

  /** One command leaves an empty order on the book exactly when it empties one in place. */
  lemma PositiveIff(b: Book, cmd: Command)
    requires BookOk(b) && Positive(b)
    ensures Positive(Apply(b, cmd).book) <==> !Empties(b, cmd)
  {
    hide LadderOk, TicketsOk, AddOrder, CancelOrder, ModifyOrder, Positive;
    match cmd
    case NoCommand =>
    case Add(r) => AddPositive(b, r);
    case Cancel(client, id) => CancelPositive(b, client, id);
    case Modify(client, id, price, quantity) => ModifyPositive(b, client, id, price, quantity);
  }

  /** After every command of the run, every resting order has something left. */
  ghost predicate PositiveThroughout(st: State, cmds: seq<Command>)
    requires BookOk(st.book)
    decreases |cmds|
  {
    && Positive(st.book)
    && (|cmds| > 0 ==>
          && BookOk(Step(st, cmds[0]).book)
          && PositiveThroughout(Step(st, cmds[0]), cmds[1..]))
  }

  /** No command of the run empties an order in place. */
  ghost predicate NoneEmpties(st: State, cmds: seq<Command>)
    requires BookOk(st.book)
    decreases |cmds|
  {
    |cmds| > 0 ==>
      && !Empties(st.book, cmds[0])
      && BookOk(Step(st, cmds[0]).book)
      && NoneEmpties(Step(st, cmds[0]), cmds[1..])
  }

  lemma {:induction false} RunPositiveIff(st: State, cmds: seq<Command>)
    requires BookOk(st.book) && Positive(st.book)
    ensures PositiveThroughout(st, cmds) <==> NoneEmpties(st, cmds)
    decreases |cmds|
  {
    hide LadderOk, TicketsOk, Apply, Positive, Empties;
    if |cmds| == 0 {
    } else {
      ApplyKeeps(st.book, cmds[0]);
      PositiveIff(st.book, cmds[0]);
      if Positive(Step(st, cmds[0]).book) {
        RunPositiveIff(Step(st, cmds[0]), cmds[1..]);
      }
    }
  }

  /**
   Throughout a session only orders with something left rest, exactly when none of its commands
   empties an order in place.
   */
  lemma SessionPositiveIff(cmds: seq<Command>)
    ensures BookOk(START.book) && (PositiveThroughout(START, cmds) <==> NoneEmpties(START, cmds))
  {
    StartOk();
    assert AsSet([]) == {};
    RunPositiveIff(START, cmds);
  }

  /** An empty order that an incoming order meets first is removed with a fill of nothing. */
  lemma EmptiedIsSwept(b: Book, r: Request)
    requires BookOk(b) && r.quantity > 0 && |Facing(b, r)| > 0 && |Facing(b, r)[0].orders| > 0
    requires Facing(b, r)[0].orders[0].remaining == 0 && Crosses(r.side, r.kind, r.price, Facing(b, r)[0].price)
    ensures var x, m := Facing(b, r)[0].orders[0], MatchOf(b, r);
            |m.fills| > 0 && m.fills[0] == Fill(Taker(b, r), x, 0) && x.id !in AfterMatch(b, r).index
  {
    var x, fills := Facing(b, r)[0].orders[0], MatchOf(b, r).fills;
    assert fills[0] == Fill(Taker(b, r), x, 0);
    assert x.id in FilledIds(fills);
  }
}
