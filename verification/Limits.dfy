/**
 Price limits and price priority, in plain comparisons of prices. No order trades beyond its limit in
 any session, an order with quantity left has taken all that its limit admits, and what it takes is
 at least as good as all that it leaves.
 */
module Limits {
  import opened Types
  import opened Ladders
  import opened Books
  import opened Matching
  import opened Commands
  import opened Events
  import opened Scans

  // ---- Never beyond the limit ------------------------------------------------------------

  /** The two sides meet, and neither the taker nor the maker trades beyond its price, if it has one. */
  predicate WithinLimits(f: Fill) {
    && f.maker.terms.side != f.taker.terms.side
    && (f.taker.terms.kind != Market ==>
          if f.taker.terms.side == Buy then f.maker.terms.price <= f.taker.terms.price
          else f.maker.terms.price >= f.taker.terms.price)
  }

  ghost predicate AllWithinLimits(fills: seq<Fill>) {
    forall i {:trigger fills[i]} :: 0 <= i < |fills| ==> WithinLimits(fills[i])
  }

  lemma OutwardsWithin(fills: seq<Fill>, r: Request)
    requires Outwards(fills, r)
    ensures AllWithinLimits(fills)
  {
  }

  lemma ApplyWithin(b: Book, cmd: Command)
    requires BookOk(b)
    ensures AllWithinLimits(Apply(b, cmd).fills)
  {
    hide LadderOk, TicketsOk, AddOrder, Remove, Shrink, Outwards;
    match cmd
    case NoCommand =>
    case Cancel(client, id) =>
    case Add(r) =>
      AddOutwards(b, r);
      OutwardsWithin(AddOrder(b, r).fills, r);
    case Modify(client, id, price, quantity) =>
      if id in b.index {
        var x := Lookup(b, id);
        if x.terms.client == client && (price != x.terms.price || quantity > x.remaining) {
          var r := x.terms.(price := price, quantity := quantity);
          RemoveKeeps(b, x);
          AddOutwards(Remove(b, x), r);
          OutwardsWithin(AddOrder(Remove(b, x), r).fills, r);
        }
      }
  }

  lemma {:induction false} RunWithin(st: State, cmds: seq<Command>)
    requires BookOk(st.book) && AllWithinLimits(FillsOf(st.log))
    ensures AllWithinLimits(FillsOf(Run(st, cmds).log))
    decreases |cmds|
  {
    hide LadderOk, TicketsOk, Apply, FillsOf, WithinLimits;
    if |cmds| == 0 {
    } else {
      ApplyKeeps(st.book, cmds[0]);
      ApplyWithin(st.book, cmds[0]);
      LogFills(st.book, cmds[0]);
      FillsOfJoin(st.log, Apply(st.book, cmds[0]).log);
      RunWithin(Step(st, cmds[0]), cmds[1..]);
    }
  }

  /** In no session does an order trade with its own side or beyond its limit. */
  lemma SessionWithinLimits(cmds: seq<Command>)
    ensures AllWithinLimits(FillsOf(Session(cmds).log))
  {
    StartOk();
    RunWithin(START, cmds);
  }

  // ---- All that the limit admits ---------------------------------------------------------

  lemma MatchExhausts(b: Book, r: Request, x: Ticket)
    requires BookOk(b) && MatchOf(b, r).taker.remaining > 0 && x in Elems(MatchOf(b, r).ladder)
    ensures r.kind != Market
    ensures if r.side == Buy then x.terms.price > r.price else x.terms.price < r.price
  {
    MatchThins(b, r);
  }

  /**
   After an accepted order that is not filled, a market order faces an empty side, and any other order
   faces only prices strictly beyond its own.
   */
  lemma AddExhausts(b: Book, r: Request)
    requires BookOk(b) && Accepts(b, r)
    ensures var facing := if r.side == Buy then AddOrder(b, r).book.asks else AddOrder(b, r).book.bids;
            Volume(AddOrder(b, r).fills) < r.quantity ==>
              && (r.kind == Market ==> facing == [])
              && forall i :: 0 <= i < |facing| ==>
                   if r.side == Buy then facing[i].price > r.price else facing[i].price < r.price
  {
    var s, m := r.side.Opposite(), MatchOf(b, r);
    AddSettles(b, r);
    SettledKeeps(b, r);
    MatchKeeps(b, r);
    MatchIsSweep(Facing(b, r), Taker(b, r));
    QueueInOrder(Facing(b, r), s);
    SweepFillsMin(Queue(Facing(b, r)), Taker(b, r));
    if Volume(AddOrder(b, r).fills) < r.quantity {
      forall i | 0 <= i < |m.ladder|
        ensures r.kind != Market
        ensures if r.side == Buy then m.ladder[i].price > r.price else m.ladder[i].price < r.price
      {
        LevelHasPrice(m.ladder, s, i);
        MatchExhausts(b, r, m.ladder[i].orders[0]);
      }
    }
  }

  // ---- Best price first ------------------------------------------------------------------

  /** Of what a sweep leaves, nothing is in front of its last maker. */
  lemma LeftBehind(q: seq<Ticket>, taker: Ticket, fills: seq<Fill>, left: seq<Ticket>, y: Ticket) returns (k: nat)
    requires TakesPrefix(q, taker, fills, left) && |fills| > 0 && y in left
    ensures |fills| - 1 <= k < |q| && y.terms == q[k].terms
  {
    var n := |fills|;
    if y in q[n..] {
      var j :| 0 <= j < |q| - n && q[n..][j] == y;
      k := n + j;
    } else {
      assert y in Leftover(fills) && fills[n - 1].maker == q[n - 1];
      k := n - 1;
    }
  }

  /** No order that stays in the queue is at a better price than one that was filled. */
  lemma SweepTakesBest(q: seq<Ticket>, taker: Ticket, i: nat, y: Ticket)
    requires InOrder(q, taker.terms.side.Opposite()) && i < |Sweep(q, taker).fills| && y in Sweep(q, taker).left
    ensures var p := Sweep(q, taker).fills[i].maker.terms.price;
            if taker.terms.side == Buy then p <= y.terms.price else p >= y.terms.price
  {
    hide Sweep, Leftover, InOrder;
    var r, s := Sweep(q, taker), taker.terms.side.Opposite();
    SweepTakesPrefix(q, taker);
    var k := LeftBehind(q, taker, r.fills, r.left, y);
    if i < k {
      OrderedBefore(q, s, i, k);
    }
  }

  /** An accepted order takes the best prices: all that it meets and leaves is at the same price or a worse one. */
  lemma AddTakesBest(b: Book, r: Request, i: nat, y: Ticket)
    requires BookOk(b) && i < |AddOrder(b, r).fills|
    requires y in Tickets(AddOrder(b, r).book) && y.terms.side != r.side
    ensures var p := AddOrder(b, r).fills[i].maker.terms.price;
            if r.side == Buy then p <= y.terms.price else p >= y.terms.price
  {
    var ls, s, d := Facing(b, r), r.side.Opposite(), AddOrder(b, r).book;
    AddSettles(b, r);
    SettledKeeps(b, r);
    MatchKeeps(b, r);
    SidesOk(d);
    assert y.terms.side == s && y in Elems(MatchOf(b, r).ladder);
    MatchIsSweep(ls, Taker(b, r));
    QueueInOrder(ls, s);
    SweepTakesBest(Queue(ls), Taker(b, r), i, y);
  }
}
