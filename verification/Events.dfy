/**
 What a command reports. Every fill is written into a scratch buffer of 128 events while there is
 room; then the handler writes one answer without looking whether there is room for it.
 */
module Events {
  import opened Types
  import opened Ladders
  import opened Books
  import opened Matching
  import opened Commands

  /** A reported execution. The two party fields hold client ids, and `side` is the resting order's. */
  datatype Trade = Trade(id: TradeID, maker: ClientID, taker: ClientID, price: Price,
                         quantity: Quantity, side: Side, matching: MatchType)

  datatype Event =
    | None
    | OrderAccepted(client: ClientID, id: OrderID)
    | OrderRejected(client: ClientID, code: ErrorCode)
    | ModifyAccepted(client: ClientID, id: OrderID, newId: OrderID)
    | ModifyRejected(client: ClientID, id: OrderID, code: ErrorCode)
    | CancelAccepted(client: ClientID, id: OrderID)
    | CancelRejected(client: ClientID, id: OrderID, code: ErrorCode)
    | Reported(trade: Trade)

  const MAX_EVENTS: nat := 128

  /** The events written so far, the next trade id, and whether a write fell behind the buffer. */
  datatype Tape = Tape(events: seq<Event>, nextTrade: TradeID, overrun: bool)

  function TradeOf(id: TradeID, f: Fill): Trade {
    Trade(id, f.taker.terms.client, f.maker.terms.client, f.maker.terms.price, f.quantity,
          f.maker.terms.side, f.taker.terms.matching)
  }

  /** A trade is written, and uses up its id, only while there is room. */
  function Write(t: Tape, trade: Trade): Tape {
    if |t.events| < MAX_EVENTS then Tape(t.events + [Reported(trade)], t.nextTrade + 1, t.overrun) else t
  }

  function Record(t: Tape, f: Fill): Tape {
    Write(t, TradeOf(t.nextTrade, f))
  }

  function RecordAll(t: Tape, fills: seq<Fill>): Tape
    decreases |fills|
  {
    if |fills| == 0 then t else RecordAll(Record(t, fills[0]), fills[1..])
  }

  /** The final answer; it lands outside of the buffer when the trades have filled it. */
  function Answer(t: Tape, e: Event): Tape {
    if |t.events| < MAX_EVENTS then t.(events := t.events + [e]) else t.(overrun := true)
  }

  function AnswerTo(cmd: Command, code: ErrorCode, nextId: OrderID): Event
    requires nextId > 0
  {
    match cmd
    case NoCommand => None
    case Add(r) =>
      if code == Success then OrderAccepted(r.client, nextId - 1) else OrderRejected(r.client, code)
    case Modify(client, id, _, _) =>
      if code == Success then ModifyAccepted(client, id, id) else ModifyRejected(client, id, code)
    case Cancel(client, id) =>
      if code == Success then CancelAccepted(client, id) else CancelRejected(client, id, code)
  }

  /** The tape of one command, when `nextTrade` trades have been numbered before it. */
  ghost function Emit(b: Book, cmd: Command, nextTrade: TradeID): Tape
    requires BookOk(b)
  {
    ApplyKeeps(b, cmd);
    var o := Apply(b, cmd);
    var t := RecordAll(Tape([], nextTrade, false), o.fills);
    if cmd.NoCommand? then t else Answer(t, AnswerTo(cmd, o.code, o.book.nextId))
  }

  // ---- Recording -------------------------------------------------------------------------

  /** The reports of `fills`, numbered from `first` on. */
  function Reports(fills: seq<Fill>, first: TradeID): seq<Event> {
    if |fills| == 0 then [] else [Reported(TradeOf(first, fills[0]))] + Reports(fills[1..], first + 1)
  }

  /** What fits is recorded in order with consecutive ids; what does not is dropped and takes no id. */
  lemma {:induction false} RecordAllFits(t: Tape, fills: seq<Fill>)
    requires |t.events| <= MAX_EVENTS
    ensures var n := if |t.events| + |fills| <= MAX_EVENTS then |fills| else MAX_EVENTS - |t.events|;
            RecordAll(t, fills) == Tape(t.events + Reports(fills[..n], t.nextTrade), t.nextTrade + n, t.overrun)
    decreases |fills|
  {
    if |fills| == 0 {
      assert t.events + [] == t.events;
    } else if |t.events| == MAX_EVENTS {
      RecordAllFits(t, fills[1..]);
    } else {
      var n := if |t.events| + |fills| <= MAX_EVENTS then |fills| else MAX_EVENTS - |t.events|;
      RecordAllFits(Record(t, fills[0]), fills[1..]);
      assert fills[..n][1..] == fills[1..][..n - 1];
      var head := [Reported(TradeOf(t.nextTrade, fills[0]))];
      var tail := Reports(fills[1..][..n - 1], t.nextTrade + 1);
      assert (t.events + head) + tail == t.events + (head + tail);
    }
  }

  lemma {:induction false} ReportsAt(fills: seq<Fill>, first: TradeID, i: nat)
    requires i < |fills|
    ensures |Reports(fills, first)| == |fills|
    ensures Reports(fills, first)[i] == Reported(TradeOf(first + i, fills[i]))
  {
    if |fills| > 1 {
      ReportsAt(fills[1..], first + 1, if i > 0 then i - 1 else 0);
    }
  }

  lemma ReportsLength(fills: seq<Fill>, first: TradeID)
    ensures |Reports(fills, first)| == |fills|
  {
    if |fills| == 0 {
    } else {
      ReportsAt(fills, first, 0);
    }
  }

  // ---- How many fills a command makes ----------------------------------------------------

  /**
   The order is accepted, crosses at least `MAX_EVENTS` orders, and all but the last of these do not
   suffice for it. All of this can be read off the book before the command.
   */
  ghost predicate TradesTooOften(b: Book, r: Request)
    requires BookOk(b)
  {
    Accepts(b, r) && Reaches(Queue(Facing(b, r)), Taker(b, r), MAX_EVENTS)
  }

  /** The command is such an add, or its owner's modify to such an order on the book without the old one. */
  ghost predicate TooMany(b: Book, cmd: Command)
    requires BookOk(b)
  {
    match cmd
    case NoCommand => false
    case Cancel(_, _) => false
    case Add(r) => TradesTooOften(b, r)
    case Modify(client, id, price, quantity) =>
      && id in b.index
      && var x := Lookup(b, id);
      && x.terms.client == client && (price != x.terms.price || quantity > x.remaining)
      && BookOk(Remove(b, x))
      && TradesTooOften(Remove(b, x), x.terms.(price := price, quantity := quantity))
  }

  lemma AddTooMany(b: Book, r: Request)
    requires BookOk(b)
    ensures |AddOrder(b, r).fills| >= MAX_EVENTS <==> TradesTooOften(b, r)
  {
    var ls := Facing(b, r);
    assert LadderOk(ls, r.side.Opposite());
    QueueInOrder(ls, r.side.Opposite());
    MatchIsSweep(ls, Taker(b, r));
    SweepReaches(Queue(ls), Taker(b, r), MAX_EVENTS);
    AddSettles(b, r);
  }

  lemma CommandTooMany(b: Book, cmd: Command)
    requires BookOk(b)
    ensures |Apply(b, cmd).fills| >= MAX_EVENTS <==> TooMany(b, cmd)
  {
    hide LadderOk, TicketsOk, AddOrder, Shrink, Remove, TradesTooOften;
    match cmd
    case NoCommand =>
    case Cancel(client, id) =>
    case Add(r) => AddTooMany(b, r);
    case Modify(client, id, price, quantity) =>
      if id in b.index {
        var x := Lookup(b, id);
        if x.terms.client == client && (price != x.terms.price || quantity > x.remaining) {
          RemoveKeeps(b, x);
          AddTooMany(Remove(b, x), x.terms.(price := price, quantity := quantity));
        }
      }
  }

  // ---- One command -----------------------------------------------------------------------

  lemma TapeByFills(b: Book, cmd: Command, nextTrade: TradeID)
    requires BookOk(b) && !cmd.NoCommand?
    ensures var t, o := Emit(b, cmd, nextTrade), Apply(b, cmd);
            && (t.overrun <==> |o.fills| >= MAX_EVENTS)
            && (!t.overrun ==>
                  && o.book.nextId > 0
                  && t.events == Reports(o.fills, nextTrade) + [AnswerTo(cmd, o.code, o.book.nextId)]
                  && t.nextTrade == nextTrade + |o.fills|)
  {
    hide LadderOk, TicketsOk, Apply, AnswerTo;
    ApplyKeeps(b, cmd);
    var fills := Apply(b, cmd).fills;
    RecordAllFits(Tape([], nextTrade, false), fills);
    if |fills| < MAX_EVENTS {
      assert fills[..|fills|] == fills;
      assert [] + Reports(fills, nextTrade) == Reports(fills, nextTrade);
      ReportsLength(fills, nextTrade);
    } else {
      assert [] + Reports(fills[..MAX_EVENTS], nextTrade) == Reports(fills[..MAX_EVENTS], nextTrade);
      ReportsLength(fills[..MAX_EVENTS], nextTrade);
    }
  }

  /**
   The answer falls outside of the buffer exactly when the command meets so many orders that all but
   the last of 128 do not suffice for it. Otherwise the events are the trades in the order of
   execution, then exactly one answer.
   */
  lemma TradesThenAnswer(b: Book, cmd: Command, nextTrade: TradeID)
    requires BookOk(b) && !cmd.NoCommand?
    ensures var t, o := Emit(b, cmd, nextTrade), Apply(b, cmd);
            && (t.overrun <==> TooMany(b, cmd))
            && (!TooMany(b, cmd) ==>
                  && o.book.nextId > 0
                  && t.events == Reports(o.fills, nextTrade) + [AnswerTo(cmd, o.code, o.book.nextId)]
                  && t.nextTrade == nextTrade + |o.fills|)
  {
    hide BookOk, Apply, AnswerTo, TooMany, Emit;
    TapeByFills(b, cmd, nextTrade);
    CommandTooMany(b, cmd);
  }

  lemma OnlyOwnId(b: Book, r: Request)
    requires BookOk(b)
    ensures b.nextId !in b.index
    ensures forall x {:trigger x in Tickets(AddOrder(b, r).book)} ::
              x in Tickets(AddOrder(b, r).book) && x.id == b.nextId ==> x.terms == r
  {
    NextIdIsFree(b);
    AddSettles(b, r);
    if Accepts(b, r) {
      SettledKeeps(b, r);
      TakerIsNewest(b, r);
      TakerTerms(b, r);
    }
  }

  /** An accepted order is told the id it was given, which rests under no other order; a rejected one its code. */
  lemma AcceptedUnderOwnId(b: Book, r: Request, nextTrade: TradeID)
    requires BookOk(b) && !TooMany(b, Add(r))
    ensures var t, code := Emit(b, Add(r), nextTrade), AddOrder(b, r).code;
            && |t.events| > 0
            && t.events[|t.events| - 1]
               == (if code == Success then OrderAccepted(r.client, b.nextId) else OrderRejected(r.client, code))
    ensures b.nextId !in b.index
    ensures forall x {:trigger x in Tickets(AddOrder(b, r).book)} ::
              x in Tickets(AddOrder(b, r).book) && x.id == b.nextId ==> x.terms == r
  {
    TradesThenAnswer(b, Add(r), nextTrade);
    AddKeeps(b, r);
    OnlyOwnId(b, r);
    if AddOrder(b, r).code == Success {
      AddSettles(b, r);
      assert Accepts(b, r);
    }
  }

  // ---- Quantities and prices of the trades -----------------------------------------------

  function TotalReported(events: seq<Event>): nat {
    if |events| == 0 then 0
    else (if events[0].Reported? then events[0].trade.quantity else 0) + TotalReported(events[1..])
  }

  lemma {:induction false} ReportsTotal(fills: seq<Fill>, first: TradeID, e: Event)
    requires !e.Reported?
    ensures TotalReported(Reports(fills, first) + [e]) == Volume(fills)
  {
    if |fills| == 0 {
      assert [] + [e] == [e];
      assert TotalReported([e]) == TotalReported([]);
    } else {
      ReportsTotal(fills[1..], first + 1, e);
      assert (Reports(fills, first) + [e])[1..] == Reports(fills[1..], first + 1) + [e];
    }
  }

  /** The trades of an accepted order add up to the smaller of its quantity and all it could trade against. */
  lemma TradesAddUp(b: Book, r: Request, nextTrade: TradeID)
    requires BookOk(b) && Accepts(b, r) && !TooMany(b, Add(r))
    ensures var left, all := MatchOf(b, r).taker.remaining, Liquidity(Queue(Facing(b, r)), Taker(b, r));
            var sum := TotalReported(Emit(b, Add(r), nextTrade).events);
            sum == r.quantity - left && sum == if r.quantity <= all then r.quantity else all
  {
    TradesThenAnswer(b, Add(r), nextTrade);
    AddSettles(b, r);
    ApplyKeeps(b, Add(r));
    var o := AddOrder(b, r);
    ReportsTotal(o.fills, nextTrade, AnswerTo(Add(r), o.code, o.book.nextId));
    QueueInOrder(Facing(b, r), r.side.Opposite());
    MatchIsSweep(Facing(b, r), Taker(b, r));
    SweepFillsMin(Queue(Facing(b, r)), Taker(b, r));
  }

  /** Fills move from the best price outwards, each of them within the limit. */
  ghost predicate Outwards(fills: seq<Fill>, r: Request) {
    forall j {:trigger fills[j]} :: 0 <= j < |fills| ==>
      && fills[j].maker.terms.side == r.side.Opposite()
      && fills[j].taker.terms == r
      && Crosses(r.side, r.kind, r.price, fills[j].maker.terms.price)
      && (j > 0 ==> !Better(r.side.Opposite(), fills[j].maker.terms.price, fills[j - 1].maker.terms.price))
  }

  lemma OutwardsCons(f: Fill, fills: seq<Fill>, r: Request)
    requires Outwards(fills, r) && f.taker.terms == r && f.maker.terms.side == r.side.Opposite()
    requires Crosses(r.side, r.kind, r.price, f.maker.terms.price)
    requires |fills| > 0 ==> Before(r.side.Opposite(), f.maker, fills[0].maker)
    ensures Outwards([f] + fills, r)
  {
    var all := [f] + fills;
    forall j | 0 <= j < |all|
      ensures all[j].maker.terms.side == r.side.Opposite() && all[j].taker.terms == r
      ensures Crosses(r.side, r.kind, r.price, all[j].maker.terms.price)
      ensures j > 0 ==> !Better(r.side.Opposite(), all[j].maker.terms.price, all[j - 1].maker.terms.price)
    {
      if j > 0 {
        assert all[j] == fills[j - 1];
        assert j > 1 ==> all[j - 1] == fills[j - 2];
      }
    }
  }

  lemma {:induction false} SweepOutwards(q: seq<Ticket>, taker: Ticket)
    requires InOrder(q, taker.terms.side.Opposite())
    requires forall x: Ticket {:trigger x in q} :: x in q ==> x.terms.side == taker.terms.side.Opposite()
    ensures Outwards(Sweep(q, taker).fills, taker.terms)
    ensures var fills := Sweep(q, taker).fills; |fills| > 0 ==> fills[0].maker == q[0]
  {
    if taker.remaining > 0 && |q| > 0 && TicketCrosses(taker, q[0].terms.price) {
      assert q[0] in q;
      var f := Fill(taker, q[0], Min(taker.remaining, q[0].remaining));
      var t := AfterFill(taker, f.quantity);
      if f.quantity == q[0].remaining {
        forall x: Ticket | x in q[1..] ensures x.terms.side == t.terms.side.Opposite() {
          assert x in q;
        }
        SweepOutwards(q[1..], t);
        OutwardsCons(f, Sweep(q[1..], t).fills, taker.terms);
      }
    }
  }

  lemma AddOutwards(b: Book, r: Request)
    requires BookOk(b)
    ensures Outwards(AddOrder(b, r).fills, r)
  {
    AddSettles(b, r);
    if Accepts(b, r) {
      var ls, s := Facing(b, r), r.side.Opposite();
      QueueInOrder(ls, s);
      MatchIsSweep(ls, Taker(b, r));
      forall x: Ticket | x in Queue(ls) ensures x.terms.side == s {
        Locate(ls, s, x);
      }
      SweepOutwards(Queue(ls), Taker(b, r));
    }
  }

  /**
   The first events report `fills`, which the request `r` made as a taker: numbered from `first` on,
   each with the two clients, the price of the maker and the side it rested on, the quantity and the
   kind of matching; no price beyond the limit; and no price better for the taker than the one before.
   */
  ghost predicate WellReported(events: seq<Event>, fills: seq<Fill>, first: TradeID, r: Request) {
    && |fills| <= |events|
    && forall j {:trigger events[j]} {:trigger fills[j]} :: 0 <= j < |fills| ==>
         && var m := fills[j].maker.terms;
         && events[j] == Reported(Trade(first + j, r.client, m.client, m.price, fills[j].quantity,
                                        if r.side == Buy then Sell else Buy, r.matching))
         && (r.kind != Market ==> if r.side == Buy then m.price <= r.price else m.price >= r.price)
         && (j > 0 ==>
               if r.side == Buy then fills[j - 1].maker.terms.price <= m.price
               else fills[j - 1].maker.terms.price >= m.price)
  }

  lemma WellReportedFrom(events: seq<Event>, fills: seq<Fill>, first: TradeID, r: Request)
    requires Outwards(fills, r) && |fills| <= |events|
    requires forall j {:trigger events[j]} :: 0 <= j < |fills| ==> events[j] == Reported(TradeOf(first + j, fills[j]))
    ensures WellReported(events, fills, first, r)
  {
  }

  /** The events of an add report its fills well. */
  lemma AddWellReported(b: Book, r: Request, nextTrade: TradeID)
    requires BookOk(b) && !TooMany(b, Add(r))
    ensures WellReported(Emit(b, Add(r), nextTrade).events, AddOrder(b, r).fills, nextTrade, r)
  {
    var fills, events := AddOrder(b, r).fills, Emit(b, Add(r), nextTrade).events;
    TradesThenAnswer(b, Add(r), nextTrade);
    AddOutwards(b, r);
    ReportsLength(fills, nextTrade);
    forall j | 0 <= j < |fills| ensures events[j] == Reported(TradeOf(nextTrade + j, fills[j])) {
      ReportsAt(fills, nextTrade, j);
    }
    WellReportedFrom(events, fills, nextTrade, r);
  }

  // ---- The answers -----------------------------------------------------------------------

  /** A command that is none changes nothing and is not answered. */
  lemma NoCommandIsSilent(b: Book, nextTrade: TradeID)
    requires BookOk(b)
    ensures Apply(b, NoCommand).book == b && Emit(b, NoCommand, nextTrade) == Tape([], nextTrade, false)
  {
  }

  /** The one event of a cancel. */
  lemma CancelAnswered(b: Book, client: ClientID, id: OrderID, nextTrade: TradeID)
    requires BookOk(b)
    ensures Emit(b, Cancel(client, id), nextTrade).events
         == [if id !in b.index then CancelRejected(client, id, InvalidCancel)
             else if Lookup(b, id).terms.client != client then CancelRejected(client, id, Unauthorized)
             else CancelAccepted(client, id)]
  {
    hide LadderOk, TicketsOk, Remove, Emit;
    TradesThenAnswer(b, Cancel(client, id), nextTrade);
  }

  /** The owner moves the order or makes it larger, and the order it becomes is post-only and would trade. */
  ghost predicate MoveBlocked(b: Book, x: Ticket, price: Price, quantity: Quantity)
    requires BookOk(b)
  {
    && (price != x.terms.price || quantity > x.remaining)
    && x.terms.kind == Limit && x.terms.flags.postOnly
    && exists y {:trigger y in Tickets(b)} :: y in Tickets(b) && y.terms.side != x.terms.side
         && if x.terms.side == Buy then y.terms.price <= price else y.terms.price >= price
  }

  lemma BlockedIff(b: Book, r: Request)
    requires BookOk(b)
    ensures PostOnlyBlocks(b, r)
        <==> r.kind == Limit && r.flags.postOnly
             && exists y {:trigger y in Tickets(b)} :: y in Tickets(b) && y.terms.side != r.side
                  && if r.side == Buy then y.terms.price <= r.price else y.terms.price >= r.price
  {
    SidesOk(b);
    var ls, s := Facing(b, r), r.side.Opposite();
    QueueInOrder(ls, s);
    if |ls| > 0 {
      LocateAt(ls, s, 0, 0);
      QueueAt(ls, 0, 0);
      var x := ls[0].orders[0];
      assert x in Elems(ls) && x in Tickets(b) && x.terms.side != r.side;
      if !Crosses(r.side, r.kind, r.price, ls[0].price) {
        NothingCrosses(Queue(ls), Taker(b, r));
      }
    }
    forall y | y in Tickets(b) && y.terms.side != r.side ensures y in Elems(ls) {
      assert y.terms.side == s;
    }
  }

  /** Whether the re-add is blocked can be seen on the book that still holds the order. */
  lemma MoveBlockedIff(b: Book, x: Ticket, price: Price, quantity: Quantity)
    requires BookOk(b) && x in Tickets(b) && (price != x.terms.price || quantity > x.remaining)
    ensures BookOk(Remove(b, x))
    ensures PostOnlyBlocks(Remove(b, x), x.terms.(price := price, quantity := quantity))
        <==> MoveBlocked(b, x, price, quantity)
  {
    hide LadderOk, TicketsOk, Remove, PostOnlyBlocks, Tickets;
    RemoveKeeps(b, x);
    BlockedIff(Remove(b, x), x.terms.(price := price, quantity := quantity));
    assert forall y: Ticket {:trigger y in Tickets(b)} {:trigger y in Tickets(Remove(b, x))} ::
        y.terms.side != x.terms.side ==> (y in Tickets(Remove(b, x)) <==> y in Tickets(b));
  }

  lemma ReAddCode(b: Book, r: Request)
    requires BookOk(b) && r.matching == Standard && Rests(r)
    ensures AddOrder(b, r).code == if PostOnlyBlocks(b, r) then PostOnlyViolation else Success
  {
    TakerTerms(b, r);
  }

  /** The code of a modify, from the book before it. */
  lemma ModifyCode(b: Book, client: ClientID, id: OrderID, price: Price, quantity: Quantity)
    requires BookOk(b)
    ensures ModifyOrder(b, client, id, price, quantity).code
         == if id !in b.index then InvalidModify
            else if Lookup(b, id).terms.client != client then Unauthorized
            else if MoveBlocked(b, Lookup(b, id), price, quantity) then InvalidModify
            else Success
  {
    hide LadderOk, Remove, Shrink, AddOrder, PostOnlyBlocks;
    if id in b.index {
      var x := Lookup(b, id);
      if price != x.terms.price || quantity > x.remaining {
        var r := x.terms.(price := price, quantity := quantity);
        RemoveKeeps(b, x);
        assert Restable(x);
        ReAddCode(Remove(b, x), r);
        MoveBlockedIff(b, x, price, quantity);
      }
    }
  }

  /** The last event of a modify, unless its trades fill the buffer. */
  lemma ModifyAnswered(b: Book, client: ClientID, id: OrderID, price: Price, quantity: Quantity, nextTrade: TradeID)
    requires BookOk(b) && !TooMany(b, Modify(client, id, price, quantity))
    ensures var events := Emit(b, Modify(client, id, price, quantity), nextTrade).events;
            && |events| > 0
            && events[|events| - 1]
               == if id !in b.index then ModifyRejected(client, id, InvalidModify)
                  else if Lookup(b, id).terms.client != client then ModifyRejected(client, id, Unauthorized)
                  else if MoveBlocked(b, Lookup(b, id), price, quantity) then ModifyRejected(client, id, InvalidModify)
                  else ModifyAccepted(client, id, id)
  {
    hide LadderOk, TicketsOk, Emit, ModifyOrder, MoveBlocked, TooMany;
    TradesThenAnswer(b, Modify(client, id, price, quantity), nextTrade);
    ModifyCode(b, client, id, price, quantity);
  }

  // ---- Whole sessions --------------------------------------------------------------------

  datatype Feed = Feed(events: seq<Event>, nextTrade: TradeID, overrun: bool)

  /** Everything reported over a session: the tapes of its commands, one after the other. */
  ghost function Broadcast(st: State, feed: Feed, cmds: seq<Command>): Feed
    requires BookOk(st.book)
    decreases |cmds|
  {
    if |cmds| == 0 then feed
    else
      ApplyKeeps(st.book, cmds[0]);
      var t := Emit(st.book, cmds[0], feed.nextTrade);
      Broadcast(Step(st, cmds[0]), Feed(feed.events + t.events, t.nextTrade, feed.overrun || t.overrun), cmds[1..])
  }

  /** The trades among the events. */
  function TradesIn(events: seq<Event>): seq<Event> {
    if |events| == 0 then []
    else (if events[0].Reported? then [events[0]] else []) + TradesIn(events[1..])
  }

  lemma {:induction false} TradesInJoin(a: seq<Event>, b: seq<Event>)
    ensures TradesIn(a + b) == TradesIn(a) + TradesIn(b)
  {
    if |a| == 0 {
      assert a + b == b;
      assert [] + TradesIn(b) == TradesIn(b);
    } else {
      TradesInJoin(a[1..], b);
      assert (a + b)[0] == a[0] && (a + b)[1..] == a[1..] + b;
      var head: seq<Event> := if a[0].Reported? then [a[0]] else [];
      var x, y := TradesIn(a[1..]), TradesIn(b);
      assert head + (x + y) == (head + x) + y;
    }
  }

  lemma {:induction false} ReportsJoin(a: seq<Fill>, b: seq<Fill>, first: TradeID)
    ensures Reports(a + b, first) == Reports(a, first) + Reports(b, first + |a|)
  {
    if |a| == 0 {
      assert a + b == b;
      assert [] + Reports(b, first) == Reports(b, first);
    } else {
      ReportsJoin(a[1..], b, first + 1);
      assert (a + b)[1..] == a[1..] + b;
      var head := [Reported(TradeOf(first, a[0]))];
      var x, y := Reports(a[1..], first + 1), Reports(b, first + |a|);
      assert head + (x + y) == (head + x) + y;
    }
  }

  lemma {:induction false} TradesInReports(fills: seq<Fill>, first: TradeID)
    ensures TradesIn(Reports(fills, first)) == Reports(fills, first)
  {
    if |fills| == 0 {
    } else {
      TradesInReports(fills[1..], first + 1);
      assert Reports(fills, first)[1..] == Reports(fills[1..], first + 1);
    }
  }

  lemma EmitTrades(b: Book, cmd: Command, nextTrade: TradeID)
    requires BookOk(b) && !Emit(b, cmd, nextTrade).overrun
    ensures var t, fills := Emit(b, cmd, nextTrade), Apply(b, cmd).fills;
            TradesIn(t.events) == Reports(fills, nextTrade) && t.nextTrade == nextTrade + |fills|
  {
    if !cmd.NoCommand? {
      TapeByFills(b, cmd, nextTrade);
      ApplyKeeps(b, cmd);
      var o := Apply(b, cmd);
      var e := AnswerTo(cmd, o.code, o.book.nextId);
      TradesInJoin(Reports(o.fills, nextTrade), [e]);
      TradesInReports(o.fills, nextTrade);
      assert TradesIn([e]) == [];
    }
  }

  /** What a feed must tell about a history: its fills, all of them, in order, numbered from one. */
  ghost predicate Tells(feed: Feed, log: seq<Action>) {
    TradesIn(feed.events) == Reports(FillsOf(log), 1) && feed.nextTrade == 1 + |FillsOf(log)|
  }

  lemma TellsJoin(feed: Feed, log: seq<Action>, events: seq<Event>, more: seq<Action>)
    requires Tells(feed, log) && TradesIn(events) == Reports(FillsOf(more), feed.nextTrade)
    ensures Tells(Feed(feed.events + events, feed.nextTrade + |FillsOf(more)|, false), log + more)
  {
    TradesInJoin(feed.events, events);
    FillsOfJoin(log, more);
    ReportsJoin(FillsOf(log), FillsOf(more), 1);
  }

  lemma TellsStep(st: State, feed: Feed, cmd: Command)
    requires BookOk(st.book) && Tells(feed, st.log) && !Emit(st.book, cmd, feed.nextTrade).overrun
    ensures var t := Emit(st.book, cmd, feed.nextTrade);
            Tells(Feed(feed.events + t.events, t.nextTrade, false), Step(st, cmd).log)
  {
    EmitTrades(st.book, cmd, feed.nextTrade);
    LogFills(st.book, cmd);
    TellsJoin(feed, st.log, Emit(st.book, cmd, feed.nextTrade).events, Apply(st.book, cmd).log);
  }

  /** No command of the run meets too many orders for the buffer. */
  ghost predicate NoneTooMany(st: State, cmds: seq<Command>)
    requires BookOk(st.book)
    decreases |cmds|
  {
    |cmds| > 0 ==>
      && !TooMany(st.book, cmds[0])
      && BookOk(Step(st, cmds[0]).book)
      && NoneTooMany(Step(st, cmds[0]), cmds[1..])
  }

  lemma EmitOverrun(b: Book, cmd: Command, nextTrade: TradeID)
    requires BookOk(b)
    ensures Emit(b, cmd, nextTrade).overrun <==> TooMany(b, cmd)
  {
    if cmd.NoCommand? {
    } else {
      TradesThenAnswer(b, cmd, nextTrade);
    }
  }

  /** A feed loses an answer exactly when some command of its run meets too many orders. */
  lemma {:induction false} OverrunIff(st: State, feed: Feed, cmds: seq<Command>)
    requires BookOk(st.book)
    ensures Broadcast(st, feed, cmds).overrun <==> feed.overrun || !NoneTooMany(st, cmds)
    decreases |cmds|
  {
    hide LadderOk, TicketsOk, Apply, Emit, TooMany;
    if |cmds| == 0 {
    } else {
      ApplyKeeps(st.book, cmds[0]);
      EmitOverrun(st.book, cmds[0], feed.nextTrade);
      var t := Emit(st.book, cmds[0], feed.nextTrade);
      OverrunIff(Step(st, cmds[0]), Feed(feed.events + t.events, t.nextTrade, feed.overrun || t.overrun), cmds[1..]);
    }
  }

  lemma {:induction false} RunTells(st: State, feed: Feed, cmds: seq<Command>)
    requires BookOk(st.book) && Tells(feed, st.log) && NoneTooMany(st, cmds) && !feed.overrun
    ensures Tells(Broadcast(st, feed, cmds), Run(st, cmds).log)
    decreases |cmds|
  {
    hide LadderOk, TicketsOk, Apply, Emit, TooMany;
    if |cmds| == 0 {
    } else {
      ApplyKeeps(st.book, cmds[0]);
      EmitOverrun(st.book, cmds[0], feed.nextTrade);
      TellsStep(st, feed, cmds[0]);
      var t := Emit(st.book, cmds[0], feed.nextTrade);
      RunTells(Step(st, cmds[0]), Feed(feed.events + t.events, t.nextTrade, false), cmds[1..]);
    }
  }

  const SILENCE := Feed([], 1, false)

  /**
   A session loses an answer exactly when one of its commands meets too many orders; otherwise the
   trades it reports are exactly its fills, in order, numbered 1, 2, 3 and so on.
   */
  lemma SessionTells(cmds: seq<Command>)
    ensures BookOk(START.book)
    ensures var feed := Broadcast(START, SILENCE, cmds);
            && (feed.overrun <==> !NoneTooMany(START, cmds))
            && (NoneTooMany(START, cmds) ==> TradesIn(feed.events) == Reports(FillsOf(Session(cmds).log), 1))
  {
    StartOk();
    OverrunIff(START, SILENCE, cmds);
    if NoneTooMany(START, cmds) {
      RunTells(START, SILENCE, cmds);
    }
  }
}
