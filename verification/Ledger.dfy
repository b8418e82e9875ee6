/**
 Conservation of quantity. For every order id, what was issued is what was matched, plus what is
 still resting, plus what was withdrawn, after every command of every session; and a session issues
 the ids 1, 2, 3 and so on, each of them once.
 */
module Ledger {
  import opened Types
  import opened Ladders
  import opened Books
  import opened Matching
  import opened Commands

  function IssuedIn(a: Action, id: OrderID): nat {
    if a.Issued? && a.ticket.id == id then a.ticket.remaining else 0
  }

  /** A fill counts on both sides: for its taker and for its maker. */
  function MatchedIn(a: Action, id: OrderID): nat {
    if a.Traded? then
      (if a.fill.taker.id == id then a.fill.quantity else 0) + (if a.fill.maker.id == id then a.fill.quantity else 0)
    else 0
  }

  /** Cancelled, discarded instead of resting, or taken off by an in-place reduction. */
  function WithdrawnIn(a: Action, id: OrderID): nat {
    if a.Withdrawn? && a.id == id then a.quantity
    else if a.Reduced? && a.ticket.id == id then a.quantity
    else 0
  }

  function IssuedTo(log: seq<Action>, id: OrderID): nat {
    if |log| == 0 then 0 else IssuedIn(log[0], id) + IssuedTo(log[1..], id)
  }

  function MatchedFor(log: seq<Action>, id: OrderID): nat {
    if |log| == 0 then 0 else MatchedIn(log[0], id) + MatchedFor(log[1..], id)
  }

  function WithdrawnFrom(log: seq<Action>, id: OrderID): nat {
    if |log| == 0 then 0 else WithdrawnIn(log[0], id) + WithdrawnFrom(log[1..], id)
  }

  /** The quantity of the order `id` in a queue. */
  function OpenIn(q: seq<Ticket>, id: OrderID): nat {
    if |q| == 0 then 0 else (if q[0].id == id then q[0].remaining else 0) + OpenIn(q[1..], id)
  }

  /** The quantity of the order `id` still resting on the book. */
  function Open(b: Book, id: OrderID): nat {
    OpenIn(Queue(b.bids), id) + OpenIn(Queue(b.asks), id)
  }

  lemma {:induction false} Totals(a: seq<Action>, b: seq<Action>, id: OrderID)
    ensures IssuedTo(a + b, id) == IssuedTo(a, id) + IssuedTo(b, id)
    ensures MatchedFor(a + b, id) == MatchedFor(a, id) + MatchedFor(b, id)
    ensures WithdrawnFrom(a + b, id) == WithdrawnFrom(a, id) + WithdrawnFrom(b, id)
  {
    if |a| == 0 {
      assert a + b == b;
    } else {
      assert (a + b)[1..] == a[1..] + b;
      Totals(a[1..], b, id);
    }
  }

  lemma {:induction false} OpenSplit(q: seq<Ticket>, r: seq<Ticket>, id: OrderID)
    ensures OpenIn(q + r, id) == OpenIn(q, id) + OpenIn(r, id)
  {
    if |q| == 0 {
      assert q + r == r;
    } else {
      assert (q + r)[1..] == q[1..] + r;
      OpenSplit(q[1..], r, id);
    }
  }

  function Share(x: Ticket, id: OrderID): nat {
    if x.id == id then x.remaining else 0
  }

  lemma OpenAt(q: seq<Ticket>, k: nat, id: OrderID)
    requires k < |q|
    ensures OpenIn(q, id) == OpenIn(q[..k], id) + Share(q[k], id) + OpenIn(q[k + 1..], id)
  {
    assert q == q[..k] + ([q[k]] + q[k + 1..]);
    OpenSplit(q[..k], [q[k]] + q[k + 1..], id);
    assert ([q[k]] + q[k + 1..])[1..] == q[k + 1..];
  }

  // ---- The edits -------------------------------------------------------------------------

  lemma EraseOpen(ls: seq<Level<Ticket>>, i: nat, j: nat, volume: Quantity, id: OrderID)
    requires i < |ls| && j < |ls[i].orders|
    ensures OpenIn(Queue(EraseAt(ls, i, j, volume)), id) == OpenIn(Queue(ls), id) - Share(ls[i].orders[j], id)
  {
    var q, k := Queue(ls), Offset(ls, i) + j;
    EraseQueue(ls, i, j, volume);
    QueueAt(ls, i, j);
    OpenAt(q, k, id);
    OpenSplit(q[..k], q[k + 1..], id);
  }

  lemma UpdateOpen(ls: seq<Level<Ticket>>, i: nat, j: nat, x: Ticket, volume: Quantity, id: OrderID)
    requires i < |ls| && j < |ls[i].orders|
    ensures OpenIn(Queue(UpdateAt(ls, i, j, x, volume)), id)
         == OpenIn(Queue(ls), id) - Share(ls[i].orders[j], id) + Share(x, id)
  {
    var q, k := Queue(ls), Offset(ls, i) + j;
    UpdateQueue(ls, i, j, x, volume);
    QueueAt(ls, i, j);
    OpenAt(q, k, id);
    OpenAt(q[k := x], k, id);
    assert q[k := x][..k] == q[..k] && q[k := x][k + 1..] == q[k + 1..];
  }

  lemma RemoveFromOpen(ls: seq<Level<Ticket>>, s: Side, x: Ticket, id: OrderID)
    requires LadderOk(ls, s) && x in Elems(ls)
    ensures OpenIn(Queue(RemoveFrom(ls, s, x)), id) == OpenIn(Queue(ls), id) - Share(x, id)
  {
    Locate(ls, s, x);
    var i := LowerBound(ls, s, x.terms.price);
    EraseOpen(ls, i, IndexOf(ls[i].orders, x),
              if x.terms.flags.hidden then ls[i].volume else Wrap(ls[i].volume - x.remaining), id);
  }

  lemma UpdateInOpen(ls: seq<Level<Ticket>>, s: Side, x: Ticket, remaining: Quantity, d: int, id: OrderID)
    requires LadderOk(ls, s) && x in Elems(ls)
    ensures OpenIn(Queue(UpdateIn(ls, s, x, remaining, d)), id)
         == OpenIn(Queue(ls), id) - Share(x, id) + Share(x.(remaining := remaining), id)
  {
    Locate(ls, s, x);
    var i := LowerBound(ls, s, x.terms.price);
    UpdateOpen(ls, i, IndexOf(ls[i].orders, x), x.(remaining := remaining), Wrap(ls[i].volume + d), id);
  }

  lemma RemoveOpen(b: Book, x: Ticket, id: OrderID)
    requires BookOk(b) && x in Tickets(b)
    ensures Open(Remove(b, x), id) == Open(b, id) - Share(x, id)
  {
    TwoSides(b, x);
    RemoveFromOpen(Ladder(b, x.terms.side), x.terms.side, x, id);
  }

  lemma ShrinkOpen(b: Book, x: Ticket, quantity: Quantity, id: OrderID)
    requires BookOk(b) && x in Tickets(b)
    ensures Open(Shrink(b, x, quantity), id) == Open(b, id) - Share(x, id) + Share(x.(remaining := quantity), id)
  {
    TwoSides(b, x);
    UpdateInOpen(Ladder(b, x.terms.side), x.terms.side, x, quantity, ShrinkDelta(x, quantity), id);
  }

  lemma InsertOpen(b: Book, x: Ticket, id: OrderID)
    ensures Open(Insert(b, x), id) == Open(b, id) + Share(x, id)
  {
    var ls, s, p := Ladder(b, x.terms.side), x.terms.side, x.terms.price;
    var extra: Quantity := if x.terms.flags.hidden then 0 else x.remaining;
    AppendQueue(ls, s, p, x, extra);
    var q, k := Queue(ls), BackOf(ls, s, p);
    assert q == q[..k] + q[k..];
    OpenSplit(q[..k], q[k..], id);
    OpenSplit(q[..k] + [x], q[k..], id);
    OpenSplit(q[..k], [x], id);
  }

  lemma TradesHead(f: Fill, fills: seq<Fill>, id: OrderID)
    ensures MatchedFor(Trades([f] + fills), id) == MatchedIn(Traded(f), id) + MatchedFor(Trades(fills), id)
    ensures IssuedTo(Trades([f] + fills), id) == IssuedTo(Trades(fills), id)
    ensures WithdrawnFrom(Trades([f] + fills), id) == WithdrawnFrom(Trades(fills), id)
  {
    assert ([f] + fills)[1..] == fills;
    assert ([Traded(f)] + Trades(fills))[1..] == Trades(fills);
  }

  /** A match takes off every maker exactly what the fills say it traded, and off the taker the same. */
  lemma {:induction false} SweepOpen(q: seq<Ticket>, taker: Ticket, id: OrderID)
    ensures var r := Sweep(q, taker);
            && r.taker.id == taker.id
            && OpenIn(r.left, id) + Share(r.taker, id) + MatchedFor(Trades(r.fills), id)
               == OpenIn(q, id) + Share(taker, id)
            && IssuedTo(Trades(r.fills), id) == WithdrawnFrom(Trades(r.fills), id) == 0
  {
    if taker.remaining > 0 && |q| > 0 && TicketCrosses(taker, q[0].terms.price) {
      var f := Fill(taker, q[0], Min(taker.remaining, q[0].remaining));
      var t := AfterFill(taker, f.quantity);
      if f.quantity == q[0].remaining {
        SweepOpen(q[1..], t, id);
        TradesHead(f, Sweep(q[1..], t).fills, id);
      } else {
        TradesHead(f, [], id);
        assert ([AfterFill(q[0], f.quantity)] + q[1..])[1..] == q[1..];
      }
    }
  }

  // ---- Commands --------------------------------------------------------------------------

  /** The books balance for `id` across one command. */
  ghost predicate Balances(b: Book, o: Outcome, id: OrderID) {
    Open(b, id) + IssuedTo(o.log, id) == Open(o.book, id) + MatchedFor(o.log, id) + WithdrawnFrom(o.log, id)
  }

  lemma AfterMatchOpen(b: Book, r: Request, id: OrderID)
    requires BookOk(b)
    ensures Open(AfterMatch(b, r), id) + Share(MatchOf(b, r).taker, id) + MatchedFor(Trades(MatchOf(b, r).fills), id)
         == Open(b, id) + Share(Taker(b, r), id)
    ensures IssuedTo(Trades(MatchOf(b, r).fills), id) == WithdrawnFrom(Trades(MatchOf(b, r).fills), id) == 0
  {
    assert LadderOk(Facing(b, r), r.side.Opposite());
    MatchIsSweep(Facing(b, r), Taker(b, r));
    SweepOpen(Queue(Facing(b, r)), Taker(b, r), id);
  }

  lemma OneAction(a: Action, id: OrderID)
    ensures IssuedTo([a], id) == IssuedIn(a, id)
    ensures MatchedFor([a], id) == MatchedIn(a, id)
    ensures WithdrawnFrom([a], id) == WithdrawnIn(a, id)
  {
  }

  lemma SettleOpen(c: Book, x: Ticket, id: OrderID)
    ensures var (d, code, log) := Settle(c, x);
            && Open(d, id) + WithdrawnFrom(log, id) == Open(c, id) + Share(x, id)
            && IssuedTo(log, id) == MatchedFor(log, id) == 0
  {
    var log := Settle(c, x).2;
    if |log| > 0 {
      OneAction(log[0], id);
      assert log == [log[0]];
    }
    InsertOpen(c, x, id);
  }

  lemma AddBalances(b: Book, r: Request, id: OrderID)
    requires BookOk(b)
    ensures Balances(b, AddOrder(b, r), id)
  {
    if Accepts(b, r) {
      var m, issued := MatchOf(b, r), [Issued(Taker(b, r))];
      AfterMatchOpen(b, r, id);
      SettleOpen(AfterMatch(b, r), m.taker, id);
      OneAction(Issued(Taker(b, r)), id);
      Totals(issued, Trades(m.fills), id);
      Totals(issued + Trades(m.fills), Settle(AfterMatch(b, r), m.taker).2, id);
    }
  }

  lemma CancelBalances(b: Book, client: ClientID, n: OrderID, id: OrderID)
    requires BookOk(b)
    ensures Balances(b, CancelOrder(b, client, n), id)
  {
    if n in b.index {
      RemoveOpen(b, Lookup(b, n), id);
      OneAction(Withdrawn(n, Lookup(b, n).remaining), id);
    }
  }

  lemma ModifyBalances(b: Book, client: ClientID, n: OrderID, price: Price, quantity: Quantity, id: OrderID)
    requires BookOk(b)
    ensures Balances(b, ModifyOrder(b, client, n, price, quantity), id)
  {
    hide LadderOk, TicketsOk, AddOrder, Shrink, Remove, Open;
    if n in b.index {
      var x := Lookup(b, n);
      if price != x.terms.price || quantity > x.remaining {
        CancelKeeps(b, client, n);
        CancelBalances(b, client, n, id);
        var c, r := CancelOrder(b, client, n), x.terms.(price := price, quantity := quantity);
        AddBalances(c.book, r, id);
        Totals(c.log, AddOrder(c.book, r).log, id);
      } else if quantity < x.remaining {
        ShrinkOpen(b, x, quantity, id);
        OneAction(Reduced(x, x.remaining - quantity), id);
      }
    }
  }

  lemma ApplyBalances(b: Book, cmd: Command, id: OrderID)
    requires BookOk(b)
    ensures Balances(b, Apply(b, cmd), id)
  {
    match cmd
    case NoCommand =>
    case Add(r) => AddBalances(b, r, id);
    case Modify(client, n, price, quantity) => ModifyBalances(b, client, n, price, quantity, id);
    case Cancel(client, n) => CancelBalances(b, client, n, id);
  }

  lemma {:induction false} RunBalances(st: State, cmds: seq<Command>, id: OrderID)
    requires BookOk(st.book)
    requires IssuedTo(st.log, id) == MatchedFor(st.log, id) + Open(st.book, id) + WithdrawnFrom(st.log, id)
    ensures var e := Run(st, cmds);
            IssuedTo(e.log, id) == MatchedFor(e.log, id) + Open(e.book, id) + WithdrawnFrom(e.log, id)
    decreases |cmds|
  {
    if |cmds| == 0 {
    } else {
      ApplyKeeps(st.book, cmds[0]);
      ApplyBalances(st.book, cmds[0], id);
      Totals(st.log, Apply(st.book, cmds[0]).log, id);
      RunBalances(Step(st, cmds[0]), cmds[1..], id);
    }
  }

  /** Conservation: issued = matched + resting + withdrawn, for every id in every session. */
  lemma SessionConserves(cmds: seq<Command>, id: OrderID)
    ensures var st := Session(cmds);
            IssuedTo(st.log, id) == MatchedFor(st.log, id) + Open(st.book, id) + WithdrawnFrom(st.log, id)
  {
    StartOk();
    RunBalances(START, cmds, id);
  }

  // ---- Ids are issued once ---------------------------------------------------------------

  /** The ids of a history, in the order in which they were issued. */
  function IdsIssued(log: seq<Action>): seq<OrderID> {
    if |log| == 0 then []
    else (if log[0].Issued? then [log[0].ticket.id] else []) + IdsIssued(log[1..])
  }

  function Counting(n: nat): seq<OrderID> {
    if n == 0 then [] else Counting(n - 1) + [n]
  }

  lemma {:induction false} CountingAt(n: nat, i: nat)
    requires i < n
    ensures |Counting(n)| == n && Counting(n)[i] == i + 1
  {
    if n == 1 {
    } else {
      CountingAt(n - 1, if i < n - 1 then i else 0);
    }
  }

  lemma {:induction false} IdsIssuedJoin(a: seq<Action>, b: seq<Action>)
    ensures IdsIssued(a + b) == IdsIssued(a) + IdsIssued(b)
  {
    if |a| == 0 {
      assert a + b == b;
      assert [] + IdsIssued(b) == IdsIssued(b);
    } else {
      IdsIssuedJoin(a[1..], b);
      assert (a + b)[0] == a[0] && (a + b)[1..] == a[1..] + b;
      var head := if a[0].Issued? then [a[0].ticket.id] else [];
      var x, y := IdsIssued(a[1..]), IdsIssued(b);
      assert head + (x + y) == (head + x) + y;
    }
  }

  lemma {:induction false} TradesIssueNothing(fills: seq<Fill>)
    ensures IdsIssued(Trades(fills)) == []
  {
    if |fills| == 0 {
    } else {
      TradesIssueNothing(fills[1..]);
      assert Trades(fills)[1..] == Trades(fills[1..]);
    }
  }

  lemma AddIssues(b: Book, r: Request)
    requires BookOk(b)
    ensures IdsIssued(AddOrder(b, r).log) == if Accepts(b, r) then [b.nextId] else []
  {
    hide LadderOk, TicketsOk, MatchLadder;
    if Accepts(b, r) {
      var m := MatchOf(b, r);
      var rest := Settle(AfterMatch(b, r), m.taker).2;
      assert |rest| <= 1 && IdsIssued(rest) == [];
      IdsIssuedJoin([Issued(Taker(b, r))] + Trades(m.fills), rest);
      IdsIssuedJoin([Issued(Taker(b, r))], Trades(m.fills));
      assert IdsIssued([Issued(Taker(b, r))]) == [b.nextId];
      TradesIssueNothing(m.fills);
    }
  }

  /** A command issues the next id, once, if it moves the counter, and no id otherwise. */
  lemma ApplyIssues(b: Book, cmd: Command)
    requires BookOk(b)
    ensures var o := Apply(b, cmd);
            && b.nextId <= o.book.nextId <= b.nextId + 1
            && IdsIssued(o.log) == if o.book.nextId > b.nextId then [b.nextId] else []
  {
    hide LadderOk, TicketsOk, AddOrder, Shrink, Remove;
    match cmd
    case NoCommand =>
    case Add(r) =>
      AddKeeps(b, r);
      AddIssues(b, r);
    case Cancel(client, id) => CancelKeeps(b, client, id);
    case Modify(client, id, price, quantity) =>
      if id in b.index {
        var x := Lookup(b, id);
        if x.terms.client == client && (price != x.terms.price || quantity > x.remaining) {
          CancelKeeps(b, client, id);
          var c, r := CancelOrder(b, client, id), x.terms.(price := price, quantity := quantity);
          AddKeeps(c.book, r);
          AddIssues(c.book, r);
          IdsIssuedJoin(c.log, AddOrder(c.book, r).log);
          assert IdsIssued(c.log) == [];
        } else if quantity < x.remaining {
          ShrinkKeeps(b, x, quantity);
        }
      }
  }

  lemma {:induction false} RunIssues(st: State, cmds: seq<Command>)
    requires BookOk(st.book) && IdsIssued(st.log) == Counting(st.book.nextId - 1)
    ensures var e := Run(st, cmds); e.book.nextId > 0 && IdsIssued(e.log) == Counting(e.book.nextId - 1)
    decreases |cmds|
  {
    hide LadderOk, TicketsOk, Apply;
    if |cmds| == 0 {
    } else {
      ApplyKeeps(st.book, cmds[0]);
      ApplyIssues(st.book, cmds[0]);
      IdsIssuedJoin(st.log, Apply(st.book, cmds[0]).log);
      assert Counting(st.book.nextId - 1) + [] == Counting(st.book.nextId - 1);
      RunIssues(Step(st, cmds[0]), cmds[1..]);
    }
  }

  lemma CountingLength(n: nat)
    ensures |Counting(n)| == n
  {
    if n == 0 {
    } else {
      CountingAt(n, 0);
    }
  }

  /** A session issues the ids 1, 2, 3 and so on, and so the id of the next order has never been issued. */
  lemma SessionIssuesOnce(cmds: seq<Command>)
    ensures var st := Session(cmds);
            && st.book.nextId > 0
            && IdsIssued(st.log) == Counting(st.book.nextId - 1)
            && st.book.nextId !in IdsIssued(st.log)
  {
    StartOk();
    RunIssues(START, cmds);
    var n := Session(cmds).book.nextId - 1;
    if n + 1 in Counting(n) {
      var i :| 0 <= i < |Counting(n)| && Counting(n)[i] == n + 1;
      CountingLength(n);
      CountingAt(n, i);
      assert false;
    }
  }

  // ---- What is open under an id ----------------------------------------------------------

  lemma {:induction false} NoneOpenIn(q: seq<Ticket>, id: OrderID)
    requires forall y: Ticket {:trigger y in q} :: y in q ==> y.id != id
    ensures OpenIn(q, id) == 0
  {
    if |q| == 0 {
    } else {
      assert q[0] in q;
      forall y: Ticket | y in q[1..] ensures y.id != id {
        assert y in q;
      }
      NoneOpenIn(q[1..], id);
    }
  }

  lemma {:induction false} OneOpenIn(q: seq<Ticket>, x: Ticket)
    requires DistinctIds(q) && x in q
    ensures OpenIn(q, x.id) == x.remaining
  {
    if x in q[1..] {
      assert x in AsSet(q[1..]) && x.id in IdsOf(q[1..]);
      OneOpenIn(q[1..], x);
    } else {
      assert x == q[0];
      forall y: Ticket | y in q[1..] ensures y.id != x.id {
        assert y in AsSet(q[1..]) && y.id in IdsOf(q[1..]);
      }
      NoneOpenIn(q[1..], x.id);
    }
  }

  lemma NothingOpen(b: Book, id: OrderID)
    requires BookOk(b) && id !in b.index
    ensures Open(b, id) == 0
  {
    forall y: Ticket | y in Queue(b.bids) ensures y.id != id {
      assert y in Elems(b.bids) && y in Tickets(b);
    }
    forall y: Ticket | y in Queue(b.asks) ensures y.id != id {
      assert y in Elems(b.asks) && y in Tickets(b);
    }
    NoneOpenIn(Queue(b.bids), id);
    NoneOpenIn(Queue(b.asks), id);
  }

  lemma NotOpposite(b: Book, x: Ticket)
    requires BookOk(b) && x in Tickets(b)
    ensures OpenIn(Queue(Ladder(b, x.terms.side.Opposite())), x.id) == 0
  {
    var other := Ladder(b, x.terms.side.Opposite());
    TwoSides(b, x);
    forall y: Ticket | y in Queue(other) ensures y.id != x.id {
      assert y in Elems(other) && y in Tickets(b);
      if y.id == x.id {
        UniqueIds(b, x, y);
      }
    }
    NoneOpenIn(Queue(other), x.id);
  }

  /** What is open under the id of a resting ticket is what that ticket has left. */
  lemma OpenOf(b: Book, x: Ticket)
    requires BookOk(b) && x in Tickets(b)
    ensures Open(b, x.id) == x.remaining
  {
    hide LadderOk, TicketsOk;
    var s := x.terms.side;
    TwoSides(b, x);
    QueueInOrder(Ladder(b, s), s);
    BookDistinct(b, s, Queue(Ladder(b, s)));
    OneOpenIn(Queue(Ladder(b, s)), x);
    NotOpposite(b, x);
  }
}
