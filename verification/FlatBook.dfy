/**
 The simplest account of the engine: two plain sets of orders and a history. There are no levels,
 lists, volumes or index here; an incoming order greedily takes the best opposite order of the set,
 and a fill-or-kill order is decided by the orders of the set and what the history has done to them.
 Every command on the real book, and so every session, does exactly this.
 */
module FlatBook {
  import opened Types
  import opened Ladders
  import opened Books
  import opened Matching
  import opened Commands
  import opened VolumeLaw
  import opened Scans

  datatype Flat = Flat(bids: set<Ticket>, asks: set<Ticket>, nextId: OrderID)

  datatype FlatOutcome = FlatOutcome(flat: Flat, code: ErrorCode, fills: seq<Fill>, log: seq<Action>)

  function OnSide(f: Flat, s: Side): set<Ticket> {
    if s == Buy then f.bids else f.asks
  }

  function WithSide(f: Flat, s: Side, ts: set<Ticket>): Flat {
    if s == Buy then f.(bids := ts) else f.(asks := ts)
  }

  ghost predicate SomeCross(ts: set<Ticket>, r: Request) {
    exists y :: y in ts && Crosses(r.side, r.kind, r.price, y.terms.price)
  }

  function Verdict(r: Request, left: Quantity): ErrorCode {
    if left == 0 || r.tif == IOC || r.tif == FOK then Success
    else if r.tif == GTD || r.tif == ATO then NotImplemented
    else if r.tif == ATC then UnsupportedTimeInForce
    else if r.kind == Market then InvalidOrderCombination
    else Success
  }

  /** An order that rests creates a level exactly when no order is at its price yet. */
  ghost function FlatOpening(ts: set<Ticket>, s: Side, p: Price): seq<Action> {
    if p in Prices(ts) then [] else [Opened(s, p)]
  }

  /** What happens to the part of the order that is not matched, given the orders on its own side. */
  ghost function FlatRest(own: set<Ticket>, x: Ticket): seq<Action> {
    if x.remaining == 0 then []
    else if Rests(x.terms) then FlatOpening(own, x.terms.side, x.terms.price)
    else [Withdrawn(x.id, x.remaining)]
  }

  /** No price that the order crosses is reached with enough volume. */
  ghost predicate FlatKills(facing: set<Ticket>, past: seq<Action>, r: Request) {
    r.tif == FOK && r.quantity > 0 && !SomePriceReaches(facing, past, r)
  }

  ghost function FlatMatch(f: Flat, r: Request): FlatOutcome {
    var x := Ticket(f.nextId, r, r.quantity);
    var g := Greedy(OnSide(f, r.side.Opposite()), x);
    var h := WithSide(f, r.side.Opposite(), g.left).(nextId := f.nextId + 1);
    var resting: set<Ticket> := if g.taker.remaining > 0 && Rests(r) then {g.taker} else {};
    FlatOutcome(WithSide(h, r.side, OnSide(h, r.side) + resting), Verdict(r, g.taker.remaining), g.fills,
                [Issued(x)] + Trades(g.fills) + FlatRest(OnSide(f, r.side), g.taker))
  }

  ghost function FlatAdd(f: Flat, past: seq<Action>, r: Request): FlatOutcome {
    var facing := OnSide(f, r.side.Opposite());
    if r.matching != Standard then FlatOutcome(f, InvalidRequest, [], [])
    else if FlatKills(facing, past, r) then FlatOutcome(f, InsufficientLiquidity, [], [])
    else if r.kind == Limit && r.flags.postOnly && SomeCross(facing, r) then FlatOutcome(f, PostOnlyViolation, [], [])
    else FlatMatch(f, r)
  }

  ghost predicate Has(f: Flat, id: OrderID) {
    exists x :: x in f.bids + f.asks && x.id == id
  }

  ghost function Find(f: Flat, id: OrderID): Ticket
    requires Has(f, id)
  {
    var x :| x in f.bids + f.asks && x.id == id;
    x
  }

  function Without(f: Flat, x: Ticket): Flat {
    f.(bids := f.bids - {x}, asks := f.asks - {x})
  }

  ghost function FlatCancel(f: Flat, client: ClientID, id: OrderID): FlatOutcome {
    if !Has(f, id) then FlatOutcome(f, InvalidCancel, [], [])
    else
      var x := Find(f, id);
      if x.terms.client != client then FlatOutcome(f, Unauthorized, [], [])
      else FlatOutcome(Without(f, x), Success, [], [Withdrawn(id, x.remaining)])
  }

  ghost function FlatModify(f: Flat, past: seq<Action>, client: ClientID, id: OrderID, price: Price,
                            quantity: Quantity): FlatOutcome {
    if !Has(f, id) then FlatOutcome(f, InvalidModify, [], [])
    else
      var x := Find(f, id);
      if x.terms.client != client then FlatOutcome(f, Unauthorized, [], [])
      else if price != x.terms.price || quantity > x.remaining then
        var gone := [Withdrawn(id, x.remaining)];
        var o := FlatAdd(Without(f, x), past + gone, x.terms.(price := price, quantity := quantity));
        FlatOutcome(o.flat, if o.code == Success then Success else InvalidModify, o.fills, gone + o.log)
      else
        var h := Without(f, x);
        FlatOutcome(WithSide(h, x.terms.side, OnSide(h, x.terms.side) + {x.(remaining := quantity)}), Success, [],
                    if quantity < x.remaining then [Reduced(x, x.remaining - quantity)] else [])
  }

  ghost function FlatApply(f: Flat, past: seq<Action>, cmd: Command): FlatOutcome {
    match cmd
    case NoCommand => FlatOutcome(f, Success, [], [])
    case Add(r) => FlatAdd(f, past, r)
    case Modify(client, id, price, quantity) => FlatModify(f, past, client, id, price, quantity)
    case Cancel(client, id) => FlatCancel(f, client, id)
  }

  // ---- The real book is the flat book ----------------------------------------------------

  function Flatten(b: Book): Flat {
    Flat(Elems(b.bids), Elems(b.asks), b.nextId)
  }

  ghost predicate Agrees(o: Outcome, f: FlatOutcome) {
    Flatten(o.book) == f.flat && o.code == f.code && o.fills == f.fills && o.log == f.log
  }

  /** Looking at the best price only is enough to know whether anything crosses. */
  lemma TopDecides(b: Book, r: Request)
    requires BookOk(b)
    ensures SomeCross(Elems(Facing(b, r)), r)
        <==> |Facing(b, r)| > 0 && Crosses(r.side, r.kind, r.price, Facing(b, r)[0].price)
  {
    var ls, s := Facing(b, r), r.side.Opposite();
    assert LadderOk(ls, s);
    if |ls| > 0 {
      LocateAt(ls, s, 0, 0);
      var x := ls[0].orders[0];
      assert Queue(ls)[0] == x && x in Elems(ls);
      if !Crosses(r.side, r.kind, r.price, ls[0].price) {
        QueueInOrder(ls, s);
        NothingCrosses(Queue(ls), Taker(b, r));
        forall y | y in Elems(ls) ensures !Crosses(r.side, r.kind, r.price, y.terms.price) {
          assert !TicketCrosses(Taker(b, r), y.terms.price);
        }
      }
    }
  }

  lemma AddCode(b: Book, r: Request)
    requires BookOk(b) && Accepts(b, r)
    ensures AddOrder(b, r).code == Verdict(r, MatchOf(b, r).taker.remaining)
  {
    TakerTerms(b, r);
  }

  lemma SettledFlat(b: Book, r: Request)
    requires BookOk(b) && r.matching == Standard
    ensures var f, g, d := Flatten(b), Greedy(Elems(Facing(b, r)), Taker(b, r)), Settled(b, r);
            && g == Consumed(Elems(MatchOf(b, r).ladder), MatchOf(b, r).taker, MatchOf(b, r).fills)
            && Elems(Ladder(d, r.side.Opposite())) == g.left
            && Elems(Ladder(d, r.side)) == Elems(Ladder(b, r.side)) + Rested(b, r)
            && d.nextId == b.nextId + 1
  {
    SettledKeeps(b, r);
    MatchKeeps(b, r);
    assert LadderOk(Facing(b, r), r.side.Opposite());
    MatchIsGreedy(Facing(b, r), Taker(b, r));
  }

  lemma OpeningFlat(b: Book, s: Side, p: Price)
    requires BookOk(b)
    ensures Opening(b, s, p) == FlatOpening(Elems(Ladder(b, s)), s, p)
  {
    var ls, k := Ladder(b, s), LowerBound(Ladder(b, s), s, p);
    assert LadderOk(ls, s);
    if HasLevel(ls, s, p) {
      LevelHasPrice(ls, s, k);
    }
    if x :| x in Elems(ls) && x.terms.price == p {
      LevelOfTicket(ls, s, x);
    }
  }

  lemma OpeningOther(b: Book, c: Book, s: Side, p: Price)
    requires Ladder(b, s) == Ladder(c, s)
    ensures Opening(b, s, p) == Opening(c, s, p)
  {
  }

  lemma RestFlat(b: Book, r: Request)
    requires BookOk(b)
    ensures Settle(AfterMatch(b, r), MatchOf(b, r).taker).2 == FlatRest(Elems(Ladder(b, r.side)), MatchOf(b, r).taker)
  {
    hide LadderOk, MatchLadder, TicketsOk, Insert, Elems, FlatOpening, Opening;
    TakerTerms(b, r);
    OpeningFlat(b, r.side, r.price);
    OpeningOther(b, AfterMatch(b, r), r.side, r.price);
  }

  lemma MatchRefines(b: Book, r: Request)
    requires BookOk(b) && Accepts(b, r)
    ensures Agrees(AddOrder(b, r), FlatMatch(Flatten(b), r))
  {
    hide LadderOk, MatchLadder, Greedy, Settled, AfterMatch, Settle, Insert, TicketsOk, Elems, FlatRest, Kills,
         PostOnlyBlocks;
    AddSettles(b, r);
    SettledFlat(b, r);
    AddCode(b, r);
    RestFlat(b, r);
  }

  lemma AddRefines(b: Book, log: seq<Action>, r: Request)
    requires BookOk(b) && BookLaw(b, log)
    ensures Agrees(AddOrder(b, r), FlatAdd(Flatten(b), log, r))
  {
    hide LadderOk, FlatMatch, BookLaw, TicketsOk, Elems, SomePriceReaches, Kills;
    TopDecides(b, r);
    KillsByHistory(b, log, r);
    if Accepts(b, r) {
      MatchRefines(b, r);
    }
  }

  lemma FindsSame(b: Book, id: OrderID)
    requires BookOk(b)
    ensures Has(Flatten(b), id) <==> id in b.index
    ensures id in b.index ==> Find(Flatten(b), id) == Lookup(b, id)
  {
    if id in b.index {
      var x := Lookup(b, id);
      assert x in Flatten(b).bids + Flatten(b).asks;
      UniqueIds(b, x, Find(Flatten(b), id));
    }
    if Has(Flatten(b), id) {
      assert Find(Flatten(b), id).id in Ids(Tickets(b));
    }
  }

  lemma RemoveFlat(b: Book, x: Ticket)
    requires BookOk(b) && x in Tickets(b)
    ensures BookOk(Remove(b, x)) && Flatten(Remove(b, x)) == Without(Flatten(b), x)
  {
    RemoveKeeps(b, x);
    TwoSides(b, x);
  }

  lemma CancelRefines(b: Book, client: ClientID, id: OrderID)
    requires BookOk(b)
    ensures Agrees(CancelOrder(b, client, id), FlatCancel(Flatten(b), client, id))
  {
    FindsSame(b, id);
    if id in b.index {
      RemoveFlat(b, Lookup(b, id));
    }
  }

  lemma ShrinkFlat(b: Book, x: Ticket, quantity: Quantity)
    requires BookOk(b) && x in Tickets(b) && quantity <= x.remaining
    ensures var h := Without(Flatten(b), x);
            && Flatten(Shrink(b, x, quantity))
               == WithSide(h, x.terms.side, OnSide(h, x.terms.side) + {x.(remaining := quantity)})
            && (quantity == x.remaining ==>
                  Flatten(b) == WithSide(h, x.terms.side, OnSide(h, x.terms.side) + {x.(remaining := quantity)}))
  {
    hide LadderOk, Update, TicketsOk, Shrink;
    ShrinkKeeps(b, x, quantity);
    TwoSides(b, x);
    assert x.(remaining := x.remaining) == x;
  }

  lemma ModifyRefines(b: Book, log: seq<Action>, client: ClientID, id: OrderID, price: Price, quantity: Quantity)
    requires BookOk(b) && BookLaw(b, log)
    ensures Agrees(ModifyOrder(b, client, id, price, quantity),
                   FlatModify(Flatten(b), log, client, id, price, quantity))
  {
    hide LadderOk, Shrink, Remove, AddOrder, FlatAdd, BookLaw;
    FindsSame(b, id);
    if id in b.index {
      var x := Lookup(b, id);
      if price != x.terms.price || quantity > x.remaining {
        RemoveFlat(b, x);
        RemoveLaw(b, x, log);
        QuietLaw(Remove(b, x), log, Withdrawn(id, x.remaining));
        AddRefines(Remove(b, x), log + [Withdrawn(id, x.remaining)], x.terms.(price := price, quantity := quantity));
      } else {
        ShrinkFlat(b, x, quantity);
      }
    }
  }

  /** One command on levels, lists, volumes and index is one command on two sets with a history. */
  lemma ApplyRefines(b: Book, log: seq<Action>, cmd: Command)
    requires BookOk(b) && BookLaw(b, log)
    ensures Agrees(Apply(b, cmd), FlatApply(Flatten(b), log, cmd))
  {
    match cmd
    case NoCommand =>
    case Add(r) => AddRefines(b, log, r);
    case Modify(client, id, price, quantity) => ModifyRefines(b, log, client, id, price, quantity);
    case Cancel(client, id) => CancelRefines(b, client, id);
  }

  datatype FlatState = FlatState(flat: Flat, log: seq<Action>)

  const FLAT_START := FlatState(Flat({}, {}, 1), [])

  /** A session on two sets, with its history. */
  ghost function FlatRun(st: FlatState, cmds: seq<Command>): FlatState
    decreases |cmds|
  {
    if |cmds| == 0 then st
    else
      var o := FlatApply(st.flat, st.log, cmds[0]);
      FlatRun(FlatState(o.flat, st.log + o.log), cmds[1..])
  }

  function FlattenState(st: State): FlatState {
    FlatState(Flatten(st.book), st.log)
  }

  /** A run on the real book is the same run on two sets: same orders left, same history. */
  lemma {:induction false} RunRefines(st: State, cmds: seq<Command>)
    requires BookOk(st.book) && BookLaw(st.book, st.log)
    ensures FlattenState(Run(st, cmds)) == FlatRun(FlattenState(st), cmds)
    decreases |cmds|
  {
    hide LadderOk, FlatApply, Apply, Flatten, TicketsOk, BookLaw;
    if |cmds| == 0 {
    } else {
      ApplyKeeps(st.book, cmds[0]);
      ApplyLaw(st.book, cmds[0], st.log);
      ApplyRefines(st.book, st.log, cmds[0]);
      RunRefines(Step(st, cmds[0]), cmds[1..]);
    }
  }

  /** A whole session on the real book, from the empty one, is the session on two sets: same orders, same history. */
  lemma SessionRefines(cmds: seq<Command>)
    ensures FlattenState(Session(cmds)) == FlatRun(FLAT_START, cmds)
  {
    StartOk();
    RunRefines(START, cmds);
    assert AsSet([]) == {};
  }
}
