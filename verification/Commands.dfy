/**
 The commands of the book as functions from a book to its successor, with the code returned, the
 fills made and the history recorded. `Run` folds them over a whole session.
 */
module Commands {
  import opened Types
  import opened Ladders
  import opened Books
  import opened Matching

  datatype Outcome = Outcome(book: Book, code: ErrorCode, fills: seq<Fill>, log: seq<Action>)

  function Trades(fills: seq<Fill>): seq<Action> {
    if |fills| == 0 then [] else [Traded(fills[0])] + Trades(fills[1..])
  }

  /** The ids of the makers that a run of fills takes off the book. */
  function FilledIds(fills: seq<Fill>): set<OrderID> {
    if |fills| == 0 then {}
    else (if fills[0].quantity == fills[0].maker.remaining then {fills[0].maker.id} else {}) + FilledIds(fills[1..])
  }

  // ---- Adding an order -------------------------------------------------------------------

  function Facing(b: Book, r: Request): seq<Level<Ticket>> {
    Ladder(b, r.side.Opposite())
  }

  /** The fill-or-kill scan: cached volumes of crossing levels, summed until they suffice. */
  function Available(ls: seq<Level<Ticket>>, r: Request, sum: Quantity): Quantity {
    if |ls| == 0 || !Crosses(r.side, r.kind, r.price, ls[0].price) then sum
    else
      var sum' := Wrap(sum + ls[0].volume);
      if sum' >= r.quantity then sum' else Available(ls[1..], r, sum')
  }

  predicate Kills(b: Book, r: Request) {
    r.tif == FOK && r.quantity > Available(Facing(b, r), r, 0)
  }

  predicate PostOnlyBlocks(b: Book, r: Request) {
    && r.kind == Limit && r.flags.postOnly
    && |Facing(b, r)| > 0 && Crosses(r.side, r.kind, r.price, Facing(b, r)[0].price)
  }

  function Taker(b: Book, r: Request): Ticket {
    Ticket(b.nextId, r, r.quantity)
  }

  ghost function MatchOf(b: Book, r: Request): Matched
    requires BookOk(b)
  {
    MatchLadder(Facing(b, r), Taker(b, r))
  }

  /** The book once the new order has taken its id and traded. */
  ghost function AfterMatch(b: Book, r: Request): Book
    requires BookOk(b)
  {
    var m := MatchOf(b, r);
    WithLadder(b, r.side.Opposite(), m.ladder).(index := b.index - FilledIds(m.fills), nextId := b.nextId + 1)
  }

  function Opening(b: Book, s: Side, p: Price): seq<Action> {
    if HasLevel(Ladder(b, s), s, p) then [] else [Opened(s, p)]
  }

  /** What becomes of the quantity that was not matched. */
  ghost function Settle(c: Book, x: Ticket): (Book, ErrorCode, seq<Action>) {
    if x.remaining == 0 then (c, Success, [])
    else if x.terms.tif == IOC || x.terms.tif == FOK then (c, Success, [Withdrawn(x.id, x.remaining)])
    else if x.terms.tif == GTD || x.terms.tif == ATO then (c, NotImplemented, [Withdrawn(x.id, x.remaining)])
    else if x.terms.tif == ATC then (c, UnsupportedTimeInForce, [Withdrawn(x.id, x.remaining)])
    else if x.terms.kind == Market then (c, InvalidOrderCombination, [Withdrawn(x.id, x.remaining)])
    else (Insert(c, x), Success, Opening(c, x.terms.side, x.terms.price))
  }

  ghost function AddOrder(b: Book, r: Request): Outcome
    requires BookOk(b)
  {
    if r.matching != Standard then Outcome(b, InvalidRequest, [], [])
    else if Kills(b, r) then Outcome(b, InsufficientLiquidity, [], [])
    else if PostOnlyBlocks(b, r) then Outcome(b, PostOnlyViolation, [], [])
    else
      var m := MatchOf(b, r);
      var (c, code, log) := Settle(AfterMatch(b, r), m.taker);
      Outcome(c, code, m.fills, [Issued(Taker(b, r))] + Trades(m.fills) + log)
  }

  // ---- Cancelling and modifying ----------------------------------------------------------

  ghost function CancelOrder(b: Book, client: ClientID, id: OrderID): Outcome
    requires BookOk(b)
  {
    if id !in b.index then Outcome(b, InvalidCancel, [], [])
    else
      var x := Lookup(b, id);
      if x.terms.client != client then Outcome(b, Unauthorized, [], [])
      else Outcome(Remove(b, x), Success, [], [Withdrawn(id, x.remaining)])
  }

  lemma CancelKeeps(b: Book, client: ClientID, id: OrderID)
    requires BookOk(b)
    ensures var o := CancelOrder(b, client, id); BookOk(o.book) && o.book.nextId == b.nextId
  {
    if id in b.index {
      RemoveKeeps(b, Lookup(b, id));
    }
  }

  function ShrinkDelta(x: Ticket, quantity: Quantity): int {
    if x.terms.flags.hidden then 0 else 0 - Wrap(quantity - x.remaining)
  }

  /**
   In place, the order shrinks to `quantity`. The level's volume has the wrapped difference
   `quantity - remaining` subtracted from it, so that a visible order's shrinking raises it.
   */
  ghost function Shrink(b: Book, x: Ticket, quantity: Quantity): Book
    requires BookOk(b) && x in Tickets(b)
  {
    Update(b, x, quantity, ShrinkDelta(x, quantity))
  }

  ghost function ModifyOrder(b: Book, client: ClientID, id: OrderID, price: Price, quantity: Quantity): Outcome
    requires BookOk(b)
  {
    if id !in b.index then Outcome(b, InvalidModify, [], [])
    else
      var x := Lookup(b, id);
      if x.terms.client != client then Outcome(b, Unauthorized, [], [])
      else if price != x.terms.price || quantity > x.remaining then
        CancelKeeps(b, client, id);
        var c := CancelOrder(b, client, id);
        var a := AddOrder(c.book, x.terms.(price := price, quantity := quantity));
        Outcome(a.book, if a.code == Success then Success else InvalidModify, a.fills, c.log + a.log)
      else if quantity < x.remaining then
        Outcome(Shrink(b, x, quantity), Success, [], [Reduced(x, x.remaining - quantity)])
      else Outcome(b, Success, [], [])
  }

  ghost function Apply(b: Book, cmd: Command): Outcome
    requires BookOk(b)
  {
    match cmd
    case NoCommand => Outcome(b, Success, [], [])
    case Add(r) => AddOrder(b, r)
    case Modify(client, id, price, quantity) => ModifyOrder(b, client, id, price, quantity)
    case Cancel(client, id) => CancelOrder(b, client, id)
  }

  // ---- Every command keeps the book in agreement -----------------------------------------

  function IdsOf(q: seq<Ticket>): set<OrderID> {
    Ids(AsSet(q))
  }

  ghost predicate DistinctIds(q: seq<Ticket>) {
    |q| == 0 || (q[0].id !in IdsOf(q[1..]) && DistinctIds(q[1..]))
  }

  lemma {:induction false} BookDistinct(b: Book, s: Side, q: seq<Ticket>)
    requires BookOk(b) && InOrder(q, s) && AsSet(q) <= Elems(Ladder(b, s))
    ensures DistinctIds(q)
  {
    if |q| == 0 {
    } else {
      assert q == [q[0]] + q[1..];
      assert AsSet(q[1..]) <= AsSet(q);
      BookDistinct(b, s, q[1..]);
      forall y | y in AsSet(q[1..]) ensures y.id != q[0].id {
        HeadIsFirst(q, s, y);
        assert q[0] in AsSet(q) && y in AsSet(q);
        if y.id == q[0].id {
          UniqueIds(b, q[0], y);
        }
      }
    }
  }

  /** `x` is a ticket of `ts`, possibly with less quantity left. */
  ghost predicate ComesFrom(x: Ticket, ts: set<Ticket>) {
    exists y {:trigger y in ts} :: y in ts && y.id == x.id && y.terms == x.terms && x.remaining <= y.remaining
  }

  lemma SweepShrinks(q: seq<Ticket>, taker: Ticket)
    ensures forall x {:trigger ComesFrom(x, AsSet(q))} :: x in Sweep(q, taker).left ==> ComesFrom(x, AsSet(q))
  {
    var r := Sweep(q, taker);
    SweepTakesPrefix(q, taker);
    forall x | x in r.left ensures ComesFrom(x, AsSet(q)) {
      if x in q[|r.fills|..] {
        assert x in AsSet(q);
      } else {
        assert q[|r.fills| - 1] in AsSet(q);
      }
    }
  }

  lemma FilledCons(f: Fill, fills: seq<Fill>)
    ensures FilledIds([f] + fills)
         == (if f.quantity == f.maker.remaining then {f.maker.id} else {}) + FilledIds(fills)
  {
    assert ([f] + fills)[1..] == fills;
  }

  lemma IdsCons(x: Ticket, q: seq<Ticket>)
    ensures IdsOf([x] + q) == {x.id} + IdsOf(q)
  {
    assert AsSet([x] + q) == {x} + AsSet(q);
    assert Ids({x} + AsSet(q)) == {x.id} + Ids(AsSet(q));
  }

  lemma {:induction false} SweepIds(q: seq<Ticket>, taker: Ticket)
    requires DistinctIds(q)
    ensures var r := Sweep(q, taker);
            IdsOf(r.left) == IdsOf(q) - FilledIds(r.fills) && FilledIds(r.fills) <= IdsOf(q)
  {
    if taker.remaining > 0 && |q| > 0 && TicketCrosses(taker, q[0].terms.price) {
      var f := Fill(taker, q[0], Min(taker.remaining, q[0].remaining));
      IdsCons(q[0], q[1..]);
      assert q == [q[0]] + q[1..];
      if f.quantity == q[0].remaining {
        SweepIds(q[1..], AfterFill(taker, f.quantity));
        FilledCons(f, Sweep(q[1..], AfterFill(taker, f.quantity)).fills);
      } else {
        IdsCons(AfterFill(q[0], f.quantity), q[1..]);
        FilledCons(f, []);
      }
    }
  }

  lemma SidesDisjoint(b: Book, s: Side)
    requires BookOk(b)
    ensures Ids(Elems(Ladder(b, s))) !! Ids(Elems(Ladder(b, s.Opposite())))
  {
    var own, other := Elems(Ladder(b, s)), Elems(Ladder(b, s.Opposite()));
    forall x, y | x in own && y in other ensures x.id != y.id {
      SidesOk(b);
      if x.id == y.id {
        UniqueIds(b, x, y);
      }
    }
  }

  lemma TicketsShrink(own: set<Ticket>, other: set<Ticket>, left: set<Ticket>, gone: set<OrderID>,
                      index: map<OrderID, Home>, nextId: OrderID)
    requires TicketsOk(own + other, index, nextId) && Ids(own) !! Ids(other)
    requires gone <= Ids(other) && Ids(left) == Ids(other) - gone
    requires forall x {:trigger ComesFrom(x, other)} :: x in left ==> ComesFrom(x, other)
    ensures TicketsOk(own + left, index - gone, nextId + 1)
  {
    forall x | x in own + left ensures TicketOk(x, index - gone, nextId + 1) {
      if x in own {
        assert x in own + other && x.id in Ids(own);
      } else {
        assert ComesFrom(x, other) && x.id in Ids(left);
        var y :| y in other && y.id == x.id && y.terms == x.terms && x.remaining <= y.remaining;
        assert y in own + other;
      }
    }
    assert Ids(own + left) == Ids(own) + Ids(left);
    assert Ids(own + other) == Ids(own) + Ids(other);
  }

  /** What a match does to the ladder it meets. */
  ghost predicate Thinned(ls: seq<Level<Ticket>>, m: Matched, t: Ticket) {
    && LadderOk(m.ladder, t.terms.side.Opposite())
    && Ids(Elems(m.ladder)) == Ids(Elems(ls)) - FilledIds(m.fills)
    && FilledIds(m.fills) <= Ids(Elems(ls))
    && m.taker == t.(remaining := m.taker.remaining) && m.taker.remaining <= t.remaining
    && (forall x {:trigger ComesFrom(x, Elems(ls))} {:trigger x in Elems(m.ladder)} ::
        x in Elems(m.ladder) ==> ComesFrom(x, Elems(ls)))
    && (m.taker.remaining > 0 ==>
          forall x {:trigger x in Elems(m.ladder)} :: x in Elems(m.ladder) ==> !TicketCrosses(t, x.terms.price))
  }

  lemma MatchThins(b: Book, r: Request)
    requires BookOk(b)
    ensures Thinned(Facing(b, r), MatchOf(b, r), Taker(b, r))
  {
    var s := r.side.Opposite();
    var ls, t := Facing(b, r), Taker(b, r);
    assert LadderOk(ls, s);
    var q := Queue(ls);
    QueueInOrder(ls, s);
    MatchIsSweep(ls, t);
    BookDistinct(b, s, q);
    SweepIds(q, t);
    SweepShrinks(q, t);
    SweepFillsMin(q, t);
    SweepExhausts(q, t);
  }

  /** Matching leaves a book in agreement; it only ever shrinks or removes opposite orders. */
  lemma MatchKeeps(b: Book, r: Request)
    requires BookOk(b)
    ensures var c, s := AfterMatch(b, r), r.side.Opposite();
            && BookOk(c) && c.nextId == b.nextId + 1
            && Ladder(c, r.side) == Ladder(b, r.side) && Ladder(c, s) == MatchOf(b, r).ladder
            && Thinned(Facing(b, r), MatchOf(b, r), Taker(b, r))
  {
    var s, m := r.side.Opposite(), MatchOf(b, r);
    MatchThins(b, r);
    SidesDisjoint(b, r.side);
    var own, other, left := Elems(Ladder(b, r.side)), Elems(Ladder(b, s)), Elems(m.ladder);
    assert Tickets(b) == own + other;
    TicketsShrink(own, other, left, FilledIds(m.fills), b.index, b.nextId);
    SidesJoin(b, s, m.ladder, own + left);
  }

  lemma TakerIsNewest(b: Book, r: Request)
    requires BookOk(b)
    ensures forall y {:trigger y in Tickets(AfterMatch(b, r))} :: y in Tickets(AfterMatch(b, r)) ==> y.id < b.nextId
  {
    MatchKeeps(b, r);
    var c := AfterMatch(b, r);
    forall y | y in Tickets(c) ensures y.id < b.nextId {
      assert y.id in c.index && y.id in b.index && y.id in Ids(Tickets(b));
    }
  }

  lemma NextIdIsFree(b: Book)
    requires BookOk(b)
    ensures b.nextId !in b.index
    ensures forall x {:trigger x in Tickets(b)} :: x in Tickets(b) ==> x.id < b.nextId
  {
    if b.nextId in b.index {
      var x := Lookup(b, b.nextId);
      assert false;
    }
  }

  predicate Rests(r: Request) {
    (r.tif == Day || r.tif == GTC) && r.kind != Market
  }

  /** The ticket that goes on the book, if one does. */
  ghost function Rested(b: Book, r: Request): set<Ticket>
    requires BookOk(b)
  {
    if MatchOf(b, r).taker.remaining > 0 && Rests(r) then {MatchOf(b, r).taker} else {}
  }

  ghost function Settled(b: Book, r: Request): Book
    requires BookOk(b)
  {
    if MatchOf(b, r).taker.remaining > 0 && Rests(r) then Insert(AfterMatch(b, r), MatchOf(b, r).taker)
    else AfterMatch(b, r)
  }

  lemma SettledKeeps(b: Book, r: Request)
    requires BookOk(b) && r.matching == Standard
    ensures var c, d := AfterMatch(b, r), Settled(b, r);
            && BookOk(d) && d.nextId == b.nextId + 1
            && Tickets(d) == Tickets(c) + Rested(b, r)
            && Elems(Ladder(d, r.side)) == Elems(Ladder(c, r.side)) + Rested(b, r)
            && Ladder(d, r.side.Opposite()) == Ladder(c, r.side.Opposite())
            && d.index.Keys == c.index.Keys + Ids(Rested(b, r))
  {
    MatchKeeps(b, r);
    TakerIsNewest(b, r);
    if MatchOf(b, r).taker.remaining > 0 && Rests(r) {
      InsertKeeps(AfterMatch(b, r), MatchOf(b, r).taker);
    }
  }

  predicate Accepts(b: Book, r: Request) {
    r.matching == Standard && !Kills(b, r) && !PostOnlyBlocks(b, r)
  }

  lemma TakerTerms(b: Book, r: Request)
    requires BookOk(b)
    ensures MatchOf(b, r).taker.terms == r && MatchOf(b, r).taker.id == b.nextId
  {
    MatchThins(b, r);
  }

  /** An order that passes the checks rests, with what it has left, exactly when it is a Day or GTC non-market order. */
  lemma AddSettles(b: Book, r: Request)
    requires BookOk(b)
    ensures AddOrder(b, r).book == if Accepts(b, r) then Settled(b, r) else b
    ensures AddOrder(b, r).fills == if Accepts(b, r) then MatchOf(b, r).fills else []
  {
    if Accepts(b, r) {
      TakerTerms(b, r);
    }
  }

  lemma AddKeeps(b: Book, r: Request)
    requires BookOk(b)
    ensures var o := AddOrder(b, r);
            && BookOk(o.book) && b.nextId <= o.book.nextId
            && o.book.nextId == if Accepts(b, r) then b.nextId + 1 else b.nextId
  {
    AddSettles(b, r);
    if Accepts(b, r) {
      SettledKeeps(b, r);
    }
  }

  lemma ShrinkKeeps(b: Book, x: Ticket, quantity: Quantity)
    requires BookOk(b) && x in Tickets(b) && quantity <= x.remaining
    ensures var c := Shrink(b, x, quantity);
            && BookOk(c) && c.nextId == b.nextId && c.index == b.index
            && Tickets(c) == Tickets(b) - {x} + {x.(remaining := quantity)}
            && Ladder(c, x.terms.side.Opposite()) == Ladder(b, x.terms.side.Opposite())
            && Elems(Ladder(c, x.terms.side)) == Elems(Ladder(b, x.terms.side)) - {x} + {x.(remaining := quantity)}
  {
    UpdateKeeps(b, x, quantity, ShrinkDelta(x, quantity));
  }

  lemma ModifyKeeps(b: Book, client: ClientID, id: OrderID, price: Price, quantity: Quantity)
    requires BookOk(b)
    ensures var o := ModifyOrder(b, client, id, price, quantity);
            BookOk(o.book) && b.nextId <= o.book.nextId
  {
    if id in b.index {
      var x := Lookup(b, id);
      if price != x.terms.price || quantity > x.remaining {
        CancelKeeps(b, client, id);
        AddKeeps(CancelOrder(b, client, id).book, x.terms.(price := price, quantity := quantity));
      } else if quantity < x.remaining {
        ShrinkKeeps(b, x, quantity);
      }
    }
  }

  /** Lists, index and ids agree after every command, and ids are only ever handed out upwards. */
  lemma ApplyKeeps(b: Book, cmd: Command)
    requires BookOk(b)
    ensures BookOk(Apply(b, cmd).book) && b.nextId <= Apply(b, cmd).book.nextId
  {
    match cmd
    case NoCommand =>
    case Add(r) => AddKeeps(b, r);
    case Modify(client, id, price, quantity) => ModifyKeeps(b, client, id, price, quantity);
    case Cancel(client, id) => CancelKeeps(b, client, id);
  }

  // ---- Sessions --------------------------------------------------------------------------

  datatype State = State(book: Book, log: seq<Action>)

  const START := State(EMPTY, [])

  ghost function Step(st: State, cmd: Command): State
    requires BookOk(st.book)
  {
    var o := Apply(st.book, cmd);
    State(o.book, st.log + o.log)
  }

  ghost function Run(st: State, cmds: seq<Command>): State
    requires BookOk(st.book)
    decreases |cmds|
  {
    if |cmds| == 0 then st
    else
      ApplyKeeps(st.book, cmds[0]);
      Run(Step(st, cmds[0]), cmds[1..])
  }

  lemma {:induction false} RunKeeps(st: State, cmds: seq<Command>)
    requires BookOk(st.book)
    ensures BookOk(Run(st, cmds).book) && st.book.nextId <= Run(st, cmds).book.nextId
    ensures st.log <= Run(st, cmds).log
    decreases |cmds|
  {
    if |cmds| == 0 {
    } else {
      ApplyKeeps(st.book, cmds[0]);
      RunKeeps(Step(st, cmds[0]), cmds[1..]);
    }
  }

  // ---- The book is never crossed ---------------------------------------------------------

  /** Every bid is strictly below every ask. */
  ghost predicate Uncrossed(b: Book) {
    forall x, y {:trigger x in Elems(b.bids), y in Elems(b.asks)} ::
      x in Elems(b.bids) && y in Elems(b.asks) ==> x.terms.price < y.terms.price
  }

  /** Taking orders away, or quantity off them, cannot cross a book. */
  lemma FewerUncrossed(b: Book, c: Book)
    requires Uncrossed(b)
    requires forall s, x {:trigger x in Elems(Ladder(c, s))} ::
              x in Elems(Ladder(c, s)) ==> ComesFrom(x, Elems(Ladder(b, s)))
    ensures Uncrossed(c)
  {
    forall x, y | x in Elems(c.bids) && y in Elems(c.asks) ensures x.terms.price < y.terms.price {
      assert x in Elems(Ladder(c, Buy)) && y in Elems(Ladder(c, Sell));
      assert ComesFrom(x, Elems(Ladder(b, Buy))) && ComesFrom(y, Elems(Ladder(b, Sell)));
    }
  }

  lemma MatchUncrossed(b: Book, r: Request)
    requires BookOk(b) && Uncrossed(b)
    ensures Uncrossed(AfterMatch(b, r))
  {
    MatchKeeps(b, r);
    var c := AfterMatch(b, r);
    forall s, x | x in Elems(Ladder(c, s)) ensures ComesFrom(x, Elems(Ladder(b, s))) {
      assert s == r.side || s == r.side.Opposite();
    }
    FewerUncrossed(b, c);
  }

  /** Orders that cross nothing on the other side may join a book that is not crossed. */
  lemma JoinUncrossed(c: Book, d: Book, r: Request, joining: set<Ticket>)
    requires Uncrossed(c)
    requires Ladder(d, r.side.Opposite()) == Ladder(c, r.side.Opposite())
    requires Elems(Ladder(d, r.side)) == Elems(Ladder(c, r.side)) + joining
    requires forall x, y {:trigger x in joining, y in Elems(Ladder(c, r.side.Opposite()))} ::
               x in joining && y in Elems(Ladder(c, r.side.Opposite()))
               ==> !Crosses(r.side, r.kind, r.price, y.terms.price) && x.terms == r
    ensures Uncrossed(d)
  {
    forall x, y | x in Elems(d.bids) && y in Elems(d.asks) ensures x.terms.price < y.terms.price {
      if r.side == Buy {
        assert x in joining || x in Elems(c.bids);
      } else {
        assert y in joining || y in Elems(c.asks);
      }
    }
  }

  lemma RestedCrossesNothing(b: Book, r: Request)
    requires BookOk(b)
    ensures forall x, y {:trigger x in Rested(b, r), y in Elems(Ladder(AfterMatch(b, r), r.side.Opposite()))} ::
              x in Rested(b, r) && y in Elems(Ladder(AfterMatch(b, r), r.side.Opposite()))
              ==> !Crosses(r.side, r.kind, r.price, y.terms.price) && x.terms == r
  {
    hide LadderOk, AfterMatch, MatchLadder, TicketsOk, MatchOf;
    MatchKeeps(b, r);
    forall x, y | x in Rested(b, r) && y in Elems(Ladder(AfterMatch(b, r), r.side.Opposite()))
      ensures !Crosses(r.side, r.kind, r.price, y.terms.price) && x.terms == r {
      assert y in Elems(MatchOf(b, r).ladder);
      assert !TicketCrosses(Taker(b, r), y.terms.price);
    }
  }

  lemma SettledUncrossed(b: Book, r: Request)
    requires BookOk(b) && Uncrossed(b) && r.matching == Standard
    ensures Uncrossed(Settled(b, r))
  {
    SettledKeeps(b, r);
    RestedCrossesNothing(b, r);
    MatchUncrossed(b, r);
    JoinUncrossed(AfterMatch(b, r), Settled(b, r), r, Rested(b, r));
  }

  lemma AddUncrossed(b: Book, r: Request)
    requires BookOk(b) && Uncrossed(b)
    ensures Uncrossed(AddOrder(b, r).book)
  {
    AddSettles(b, r);
    if Accepts(b, r) {
      SettledUncrossed(b, r);
    }
  }

  lemma CancelUncrossed(b: Book, client: ClientID, id: OrderID)
    requires BookOk(b) && Uncrossed(b)
    ensures Uncrossed(CancelOrder(b, client, id).book)
  {
    if id in b.index {
      var x := Lookup(b, id);
      RemoveKeeps(b, x);
      assert Elems(Remove(b, x).bids) <= Elems(b.bids) && Elems(Remove(b, x).asks) <= Elems(b.asks);
    }
  }

  lemma ShrinkUncrossed(b: Book, x: Ticket, quantity: Quantity)
    requires BookOk(b) && Uncrossed(b) && x in Tickets(b) && quantity <= x.remaining
    ensures Uncrossed(Shrink(b, x, quantity))
  {
    var c := Shrink(b, x, quantity);
    ShrinkKeeps(b, x, quantity);
    TwoSides(b, x);
    forall s, y | y in Elems(Ladder(c, s)) ensures ComesFrom(y, Elems(Ladder(b, s))) {
      if s == x.terms.side && y == x.(remaining := quantity) {
        assert x in Elems(Ladder(b, s));
      } else {
        assert y in Elems(Ladder(b, s));
      }
    }
    FewerUncrossed(b, c);
  }

  lemma ApplyUncrossed(b: Book, cmd: Command)
    requires BookOk(b) && Uncrossed(b)
    ensures Uncrossed(Apply(b, cmd).book)
  {
    match cmd
    case NoCommand =>
    case Add(r) => AddUncrossed(b, r);
    case Cancel(client, id) => CancelUncrossed(b, client, id);
    case Modify(client, id, price, quantity) =>
      if id in b.index {
        var x := Lookup(b, id);
        if price != x.terms.price || quantity > x.remaining {
          CancelKeeps(b, client, id);
          CancelUncrossed(b, client, id);
          AddUncrossed(CancelOrder(b, client, id).book, x.terms.(price := price, quantity := quantity));
        } else if quantity < x.remaining {
          ShrinkUncrossed(b, x, quantity);
        }
      }
  }

  /** In every session, after every command, the book is in agreement and not crossed. */
  lemma {:induction false} RunUncrossed(st: State, cmds: seq<Command>)
    requires BookOk(st.book) && Uncrossed(st.book)
    ensures BookOk(Run(st, cmds).book) && Uncrossed(Run(st, cmds).book)
    decreases |cmds|
  {
    if |cmds| == 0 {
    } else {
      ApplyKeeps(st.book, cmds[0]);
      ApplyUncrossed(st.book, cmds[0]);
      RunUncrossed(Step(st, cmds[0]), cmds[1..]);
    }
  }

  lemma StartOk()
    ensures BookOk(START.book) && Uncrossed(START.book)
  {
    assert AsSet([]) == {} && Ids({}) == {};
  }

  /** The state after the commands `cmds`, from an empty book. */
  ghost function Session(cmds: seq<Command>): (st: State)
    ensures BookOk(st.book) && Uncrossed(st.book)
  {
    StartOk();
    RunUncrossed(START, cmds);
    Run(START, cmds)
  }

  // ---- The fills in a history ------------------------------------------------------------

  /** The fills of a history. */
  function FillsOf(log: seq<Action>): seq<Fill> {
    if |log| == 0 then []
    else (if log[0].Traded? then [log[0].fill] else []) + FillsOf(log[1..])
  }

  lemma {:induction false} FillsOfJoin(a: seq<Action>, b: seq<Action>)
    ensures FillsOf(a + b) == FillsOf(a) + FillsOf(b)
  {
    if |a| == 0 {
      assert a + b == b;
      assert [] + FillsOf(b) == FillsOf(b);
    } else {
      FillsOfJoin(a[1..], b);
      assert (a + b)[0] == a[0] && (a + b)[1..] == a[1..] + b;
      var head := if a[0].Traded? then [a[0].fill] else [];
      var x, y := FillsOf(a[1..]), FillsOf(b);
      assert head + (x + y) == (head + x) + y;
    }
  }

  lemma {:induction false} FillsOfTrades(fills: seq<Fill>)
    ensures FillsOf(Trades(fills)) == fills
  {
    if |fills| == 0 {
    } else {
      FillsOfTrades(fills[1..]);
      assert Trades(fills)[1..] == Trades(fills[1..]);
    }
  }

  lemma AddLogFills(b: Book, r: Request)
    requires BookOk(b)
    ensures FillsOf(AddOrder(b, r).log) == AddOrder(b, r).fills
  {
    if Accepts(b, r) {
      var m := MatchOf(b, r);
      var rest := Settle(AfterMatch(b, r), m.taker).2;
      assert |rest| <= 1 && FillsOf(rest) == [];
      FillsOfJoin([Issued(Taker(b, r))] + Trades(m.fills), rest);
      FillsOfJoin([Issued(Taker(b, r))], Trades(m.fills));
      assert FillsOf([Issued(Taker(b, r))]) == [];
      FillsOfTrades(m.fills);
    }
  }

  /** The history of a command has exactly its fills, in order. */
  lemma LogFills(b: Book, cmd: Command)
    requires BookOk(b)
    ensures FillsOf(Apply(b, cmd).log) == Apply(b, cmd).fills
  {
    hide LadderOk, AddOrder, Shrink, Remove, TicketsOk;
    match cmd
    case NoCommand =>
    case Add(r) => AddLogFills(b, r);
    case Cancel(client, id) =>
    case Modify(client, id, price, quantity) =>
      if id in b.index {
        var x := Lookup(b, id);
        if x.terms.client == client && (price != x.terms.price || quantity > x.remaining) {
          CancelKeeps(b, client, id);
          var c := CancelOrder(b, client, id);
          var r := x.terms.(price := price, quantity := quantity);
          AddLogFills(c.book, r);
          FillsOfJoin(c.log, AddOrder(c.book, r).log);
          assert FillsOf(c.log) == [];
        }
      }
  }
}
