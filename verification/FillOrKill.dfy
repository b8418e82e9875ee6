/**
 Fill-or-kill orders. The engine decides them by a scan over cached volumes before it matches, so
 the promise "all or nothing" is as good as those volumes. This module says exactly when it holds,
 and shows that it holds in every session without hidden orders and in-place reductions.
 */
module FillOrKill {
  import opened Types
  import opened Ladders
  import opened Books
  import opened Matching
  import opened Commands
  import opened VolumeLaw
  import opened Scans

  /** Every cached volume is the quantity that really rests at its price. */
  ghost predicate Exact(ls: seq<Level<Ticket>>) {
    |ls| == 0 || (ls[0].volume == Total(ls[0].orders) && Exact(ls[1..]))
  }

  function Crossing(b: Book, r: Request): nat {
    Liquidity(Queue(Facing(b, r)), Taker(b, r))
  }

  // ---- The scan --------------------------------------------------------------------------

  lemma {:induction false} LevelLiquidity(orders: seq<Ticket>, behind: seq<Ticket>, s: Side, p: Price, t: Ticket)
    requires AllAt(orders, s, p) && TicketCrosses(t, p)
    ensures Liquidity(orders + behind, t) == Total(orders) + Liquidity(behind, t)
  {
    if |orders| == 0 {
      assert orders + behind == behind;
    } else {
      assert (orders + behind)[1..] == orders[1..] + behind;
      LevelLiquidity(orders[1..], behind, s, p, t);
    }
  }

  /** On exact volumes that do not overflow, the early-exit scan decides whether there is enough. */
  lemma {:induction false} ScanDecides(ls: seq<Level<Ticket>>, r: Request, t: Ticket, sum: Quantity)
    requires LadderOk(ls, r.side.Opposite()) && Exact(ls) && t.terms == r
    requires sum + Liquidity(Queue(ls), t) < TWO_TO_THE_64
    ensures Available(ls, r, sum) >= r.quantity <==> sum + Liquidity(Queue(ls), t) >= r.quantity
  {
    if |ls| == 0 {
    } else {
      if Crosses(r.side, r.kind, r.price, ls[0].price) {
        LevelLiquidity(ls[0].orders, Queue(ls[1..]), r.side.Opposite(), ls[0].price, t);
        ScanDecides(ls[1..], r, t, Wrap(sum + ls[0].volume));
      } else {
        LocateAt(ls, r.side.Opposite(), 0, 0);
        QueueInOrder(ls, r.side.Opposite());
        NothingCrosses(Queue(ls), t);
      }
    }
  }

  // ---- All or nothing --------------------------------------------------------------------

  /** The order was filled completely, or the book is untouched. */
  ghost predicate AllOrNothing(b: Book, r: Request)
    requires BookOk(b)
  {
    Volume(AddOrder(b, r).fills) == r.quantity || AddOrder(b, r).book == b
  }

  lemma AcceptedFills(b: Book, r: Request)
    requires BookOk(b) && Accepts(b, r)
    ensures Volume(AddOrder(b, r).fills) == if r.quantity <= Crossing(b, r) then r.quantity else Crossing(b, r)
    ensures MatchOf(b, r).taker.remaining == r.quantity - Volume(AddOrder(b, r).fills)
    ensures AddOrder(b, r).book.nextId == b.nextId + 1
  {
    var ls := Facing(b, r);
    assert LadderOk(ls, r.side.Opposite());
    QueueInOrder(ls, r.side.Opposite());
    MatchIsSweep(ls, Taker(b, r));
    SweepFillsMin(Queue(ls), Taker(b, r));
    AddSettles(b, r);
    AddKeeps(b, r);
  }

  /** An order is all-or-nothing exactly when it is turned away or enough quantity really crosses. */
  lemma AllOrNothingIff(b: Book, r: Request)
    requires BookOk(b)
    ensures AllOrNothing(b, r) <==> (Accepts(b, r) ==> r.quantity <= Crossing(b, r))
  {
    if Accepts(b, r) {
      AcceptedFills(b, r);
    } else {
      AddSettles(b, r);
    }
  }

  /** With exact volumes the scan keeps the promise: killed when too little crosses, else filled whole. */
  lemma ExactBooksKeepThePromise(b: Book, r: Request)
    requires BookOk(b) && r.tif == FOK && r.matching == Standard
    requires Exact(Facing(b, r)) && Crossing(b, r) < TWO_TO_THE_64
    ensures Kills(b, r) <==> Crossing(b, r) < r.quantity
    ensures Crossing(b, r) < r.quantity ==> AddOrder(b, r) == Outcome(b, InsufficientLiquidity, [], [])
    ensures AllOrNothing(b, r)
    ensures Accepts(b, r) ==> AddOrder(b, r).code == Success && MatchOf(b, r).taker.remaining == 0
  {
    assert LadderOk(Facing(b, r), r.side.Opposite());
    ScanDecides(Facing(b, r), r, Taker(b, r), 0);
    AllOrNothingIff(b, r);
    if Accepts(b, r) {
      AcceptedFills(b, r);
    }
  }

  /**
   The promise is broken exactly when too little crosses and yet some run of crossing levels has
   volumes that add up to enough.
   */
  lemma BrokenIff(b: Book, r: Request)
    requires BookOk(b) && r.tif == FOK && r.matching == Standard
    ensures !AllOrNothing(b, r)
        <==> !PostOnlyBlocks(b, r) && Crossing(b, r) < r.quantity && SomePrefixReaches(Facing(b, r), r)
  {
    AllOrNothingIff(b, r);
    KillsIff(b, r);
  }

  /** An order is killed although enough crosses exactly when no run of crossing levels shows it in its volumes. */
  lemma WronglyKilledIff(b: Book, r: Request)
    requires BookOk(b) && r.tif == FOK && r.matching == Standard
    ensures AddOrder(b, r).code == InsufficientLiquidity && Crossing(b, r) >= r.quantity
        <==> 0 < r.quantity <= Crossing(b, r) && !SomePrefixReaches(Facing(b, r), r)
  {
    KillsIff(b, r);
    TakerTerms(b, r);
  }

  // ---- Sessions whose volumes stay exact -------------------------------------------------

  predicate PlainCommand(cmd: Command) {
    cmd.Add? ==> !cmd.request.flags.hidden
  }

  predicate NothingReduced(log: seq<Action>) {
    |log| == 0 || (!log[0].Reduced? && NothingReduced(log[1..]))
  }

  predicate PlainCommands(cmds: seq<Command>) {
    |cmds| == 0 || (PlainCommand(cmds[0]) && PlainCommands(cmds[1..]))
  }

  ghost predicate NoneHidden(ts: set<Ticket>) {
    forall x {:trigger x in ts} :: x in ts ==> !x.terms.flags.hidden
  }

  predicate DriftFree(log: seq<Action>) {
    |log| == 0
    || (!log[0].Reduced? && (log[0].Traded? ==> !log[0].fill.maker.terms.flags.hidden) && DriftFree(log[1..]))
  }

  lemma {:induction false} DriftFreeSplit(a: seq<Action>, b: seq<Action>)
    ensures DriftFree(a + b) <==> DriftFree(a) && DriftFree(b)
    ensures NothingReduced(a + b) <==> NothingReduced(a) && NothingReduced(b)
  {
    if |a| == 0 {
      assert a + b == b;
    } else {
      assert (a + b)[1..] == a[1..] + b;
      DriftFreeSplit(a[1..], b);
    }
  }

  lemma {:induction false} NoDrift(log: seq<Action>, s: Side, p: Price)
    requires DriftFree(log)
    ensures Drift(log, s, p) == 0
  {
    if |log| == 0 {
    } else {
      var n := |log| - 1;
      assert log == log[..n] + [log[n]];
      DriftFreeSplit(log[..n], [log[n]]);
      NoDrift(log[..n], s, p);
    }
  }

  lemma {:induction false} TradesDriftFree(fills: seq<Fill>)
    requires forall i :: 0 <= i < |fills| ==> !fills[i].maker.terms.flags.hidden
    ensures DriftFree(Trades(fills))
  {
    if |fills| == 0 {
    } else {
      TradesDriftFree(fills[1..]);
      assert Trades(fills)[1..] == Trades(fills[1..]);
    }
  }

  lemma SettlePlain(c: Book, x: Ticket)
    ensures DriftFree(Settle(c, x).2)
  {
  }

  lemma MakersPlain(b: Book, r: Request)
    requires BookOk(b) && NoneHidden(Tickets(b))
    ensures forall i :: 0 <= i < |MatchOf(b, r).fills| ==> !MatchOf(b, r).fills[i].maker.terms.flags.hidden
  {
    var ls, fills := Facing(b, r), MatchOf(b, r).fills;
    assert LadderOk(ls, r.side.Opposite());
    MatchIsSweep(ls, Taker(b, r));
    SweepTakesPrefix(Queue(ls), Taker(b, r));
    forall i | 0 <= i < |fills| ensures !fills[i].maker.terms.flags.hidden {
      assert fills[i].maker in Elems(ls) && fills[i].maker in Tickets(b);
    }
  }

  lemma PlainAfterAdd(b: Book, r: Request)
    requires BookOk(b) && NoneHidden(Tickets(b)) && !r.flags.hidden && r.matching == Standard
    ensures NoneHidden(Tickets(Settled(b, r)))
  {
    MatchKeeps(b, r);
    SettledKeeps(b, r);
    TakerTerms(b, r);
    var s := r.side.Opposite();
    forall x | x in Tickets(AfterMatch(b, r)) ensures !x.terms.flags.hidden {
      if x in Elems(MatchOf(b, r).ladder) {
        assert ComesFrom(x, Elems(Ladder(b, s)));
        var y :| y in Elems(Ladder(b, s)) && y.terms == x.terms;
        assert y in Tickets(b);
      } else {
        assert x in Elems(Ladder(b, r.side)) && x in Tickets(b);
      }
    }
  }

  lemma AddPlain(b: Book, r: Request)
    requires BookOk(b) && NoneHidden(Tickets(b)) && !r.flags.hidden
    ensures NoneHidden(Tickets(AddOrder(b, r).book)) && DriftFree(AddOrder(b, r).log)
  {
    AddSettles(b, r);
    if Accepts(b, r) {
      PlainAfterAdd(b, r);
      var m := MatchOf(b, r);
      MakersPlain(b, r);
      TradesDriftFree(m.fills);
      var tail := Settle(AfterMatch(b, r), m.taker).2;
      SettlePlain(AfterMatch(b, r), m.taker);
      DriftFreeSplit([Issued(Taker(b, r))], Trades(m.fills));
      DriftFreeSplit([Issued(Taker(b, r))] + Trades(m.fills), tail);
    }
  }

  lemma ApplyPlain(b: Book, cmd: Command)
    requires BookOk(b) && NoneHidden(Tickets(b)) && PlainCommand(cmd) && NothingReduced(Apply(b, cmd).log)
    ensures NoneHidden(Tickets(Apply(b, cmd).book)) && DriftFree(Apply(b, cmd).log)
  {
    match cmd
    case NoCommand =>
    case Add(r) => AddPlain(b, r);
    case Cancel(client, id) =>
      if id in b.index {
        RemoveKeeps(b, Lookup(b, id));
      }
    case Modify(client, id, price, quantity) =>
      if id in b.index {
        var x := Lookup(b, id);
        if price != x.terms.price || quantity > x.remaining {
          CancelKeeps(b, client, id);
          RemoveKeeps(b, x);
          var c, r := CancelOrder(b, client, id), x.terms.(price := price, quantity := quantity);
          if x.terms.client == client {
            AddPlain(c.book, r);
            DriftFreeSplit(c.log, AddOrder(c.book, r).log);
          }
        }
      }
  }

  lemma PrefixNotReduced(a: seq<Action>, b: seq<Action>)
    requires a <= b && NothingReduced(b)
    ensures NothingReduced(a)
  {
    assert b == a + b[|a|..];
    DriftFreeSplit(a, b[|a|..]);
  }

  lemma {:induction false} RunPlain(st: State, cmds: seq<Command>)
    requires BookOk(st.book) && NoneHidden(Tickets(st.book)) && DriftFree(st.log)
    requires PlainCommands(cmds) && NothingReduced(Run(st, cmds).log)
    ensures BookOk(Run(st, cmds).book) && NoneHidden(Tickets(Run(st, cmds).book)) && DriftFree(Run(st, cmds).log)
    decreases |cmds|
  {
    if |cmds| == 0 {
    } else {
      ApplyKeeps(st.book, cmds[0]);
      var mid := Step(st, cmds[0]);
      RunKeeps(mid, cmds[1..]);
      PrefixNotReduced(mid.log, Run(st, cmds).log);
      DriftFreeSplit(st.log, Apply(st.book, cmds[0]).log);
      ApplyPlain(st.book, cmds[0]);
      RunPlain(mid, cmds[1..]);
    }
  }

  lemma {:induction false} SumIsTotal(orders: seq<Ticket>)
    requires forall x {:trigger x in orders} :: x in orders ==> !x.terms.flags.hidden
    ensures VisibleSum(orders) == Total(orders)
  {
    if |orders| == 0 {
    } else {
      assert orders[0] in orders;
      assert forall x {:trigger x in orders[1..]} :: x in orders[1..] ==> x in orders;
      SumIsTotal(orders[1..]);
    }
  }

  lemma {:induction false} TotalSplit(a: seq<Ticket>, b: seq<Ticket>)
    ensures Total(a + b) == Total(a) + Total(b)
  {
    if |a| == 0 {
      assert a + b == b;
    } else {
      assert (a + b)[1..] == a[1..] + b;
      TotalSplit(a[1..], b);
    }
  }

  lemma {:induction false} LawGivesExact(ls: seq<Level<Ticket>>, s: Side, log: seq<Action>)
    requires LadderLaw(ls, s, log) && DriftFree(log) && Total(Queue(ls)) < TWO_TO_THE_64
    requires forall x: Ticket {:trigger x in Queue(ls)} :: x in Queue(ls) ==> !x.terms.flags.hidden
    ensures Exact(ls)
  {
    if |ls| == 0 {
    } else {
      TotalSplit(ls[0].orders, Queue(ls[1..]));
      assert forall x {:trigger x in ls[0].orders} :: x in ls[0].orders ==> x in Queue(ls);
      assert forall x: Ticket {:trigger x in Queue(ls[1..])} :: x in Queue(ls[1..]) ==> x in Queue(ls);
      SumIsTotal(ls[0].orders);
      NoDrift(log, s, ls[0].price);
      LawGivesExact(ls[1..], s, log);
    }
  }

  lemma {:induction false} CrossingIsPart(q: seq<Ticket>, t: Ticket)
    ensures Liquidity(q, t) <= Total(q)
  {
    if |q| == 0 {
    } else {
      CrossingIsPart(q[1..], t);
    }
  }

  /**
   In every session without hidden orders and in-place reductions, as long as the quantity resting
   on the other side fits in 64 bits, a fill-or-kill order is killed exactly when too little
   crosses, and is otherwise filled completely.
   */
  lemma PlainSessionsKeepThePromise(cmds: seq<Command>, r: Request)
    requires PlainCommands(cmds) && NothingReduced(Session(cmds).log)
    requires r.tif == FOK && r.matching == Standard
    requires Total(Queue(Facing(Session(cmds).book, r))) < TWO_TO_THE_64
    ensures var b := Session(cmds).book;
            && Exact(Facing(b, r))
            && (Kills(b, r) <==> Crossing(b, r) < r.quantity)
            && AllOrNothing(b, r)
  {
    var st := Session(cmds);
    var ls, s := Facing(st.book, r), r.side.Opposite();
    StartOk();
    RunLaw(START, cmds);
    RunPlain(START, cmds);
    forall x: Ticket | x in Queue(ls) ensures !x.terms.flags.hidden {
      assert x in Elems(ls) && x in Tickets(st.book);
    }
    LawGivesExact(ls, s, st.log);
    CrossingIsPart(Queue(ls), Taker(st.book, r));
    ExactBooksKeepThePromise(st.book, r);
  }
}
