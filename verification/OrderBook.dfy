/**
 The order book as the engine runs it: an object that is changed step by step. Its ladders hold order
 objects, its index holds the node and the level key of every resting order, and its events go into
 a fixed buffer. The ghost field `model` is the same book as a value, and each method is proved to
 change it as the command functions say.
 */
module OrderBooks {
  import opened Types
  import opened Ladders
  import opened Books
  import opened Matching
  import opened Commands
  import opened Events
  import opened Orders
  import opened Mirrors
  import opened Progress

  /** The depth of a snapshot, and the counter that is compared to it, have 32 bits. */
  type Depth = n: nat | n < 0x1_0000_0000

  datatype SnapshotLevel = SnapshotLevel(price: Price, quantity: Quantity)

  datatype Snapshot = Snapshot(bids: seq<SnapshotLevel>, asks: seq<SnapshotLevel>)

  lemma LevelAtPrice(ls: Shelf, b: Book, s: Side, index: Index, p: Price)
    requires BookOk(b) && Mirrored(ls, Ladder(b, s), index)
    ensures var ms, k := Ladder(b, s), LowerBound(ls, s, p);
            && |ls| == |ms| && (k < |ls| ==> ls[k].price == ms[k].price && ls[k].volume == ms[k].volume)
            && (forall l {:trigger l in ms} :: l in ms && l.price == p ==> k < |ls| && ms[k] == l)
            && (k < |ls| ==> ms[k] in ms)
  {
    var ms, k := Ladder(b, s), LowerBound(ls, s, p);
    assert LadderOk(ms, s);
    SameBound(ls, ms, index, s, p);
    if k < |ms| {
      MirrorAt(ls, ms, index, k);
    }
    forall l | l in ms && l.price == p ensures k < |ls| && ms[k] == l {
      var i :| 0 <= i < |ms| && ms[i] == l;
      LevelAt(ms, s, i);
    }
  }

  lemma BestOnTop(b: Book, s: Side)
    requires BookOk(b) && |Ladder(b, s)| > 0 && |Ladder(b, s)[0].orders| > 0
    ensures IsBest(Elems(Ladder(b, s)), s, Ladder(b, s)[0].orders[0])
  {
    var ls := Ladder(b, s);
    assert LadderOk(ls, s);
    QueueInOrder(ls, s);
    assert Queue(ls)[0] == ls[0].orders[0];
    HeadIsBest(Queue(ls), s);
  }

  lemma TopOf(ls: Shelf, b: Book, s: Side, index: Index)
    requires BookOk(b) && Mirrored(ls, Ladder(b, s), index) && |ls| > 0
    ensures |Ladder(b, s)| > 0 && |Ladder(b, s)[0].orders| > 0 && |ls[0].orders| > 0
    ensures var x := Ladder(b, s)[0].orders[0];
            x in Tickets(b) && x.id in index && ls[0].orders[0] == index[x.id].node
  {
    TopTicket(b, s);
  }

  lemma CancelFillsNothing(b: Book, client: ClientID, id: OrderID)
    requires BookOk(b)
    ensures CancelOrder(b, client, id).fills == []
  {
  }

  /** The ticket `x` may be put on the book `c`. */
  ghost predicate RestFits(c: Book, x: Ticket) {
    && BookOk(Insert(c, x)) && Insert(c, x).nextId == c.nextId && x.id !in c.index
    && forall y {:trigger y in Tickets(Insert(c, x))} :: y in Tickets(Insert(c, x)) ==> y == x || y in Tickets(c)
  }

  /** What an accepted order leaves over may be put on the book that it leaves behind. */
  lemma RestingFits(b: Book, r: Request)
    requires BookOk(b) && r.matching == Standard && Rests(r) && MatchOf(b, r).taker.remaining > 0
    ensures RestFits(AfterMatch(b, r), MatchOf(b, r).taker)
  {
    SettledKeeps(b, r);
    MatchKeeps(b, r);
    TakerTerms(b, r);
    NextIdIsFree(b);
  }

  /** Taking a new id changes nothing in a book but its counter. */
  lemma Bumped(bids: Shelf, asks: Shelf, index: Index, b: Book)
    requires Linked(bids, asks, index, b)
    ensures var c := b.(nextId := b.nextId + 1); Linked(bids, asks, index, c) && Tickets(c) == Tickets(b)
  {
  }

  lemma {:induction false} RunNext(st: State, cmds: seq<Command>, cmd: Command)
    requires BookOk(st.book)
    ensures BookOk(Run(st, cmds).book) && Run(st, cmds + [cmd]) == Step(Run(st, cmds), cmd)
    decreases |cmds|
  {
    RunKeeps(st, cmds);
    if |cmds| == 0 {
      assert [] + [cmd] == [cmd];
      ApplyKeeps(st.book, cmd);
      assert Run(Step(st, cmd), []) == Step(st, cmd);
    } else {
      ApplyKeeps(st.book, cmds[0]);
      RunNext(Step(st, cmds[0]), cmds[1..], cmd);
      assert (cmds + [cmd])[1..] == cmds[1..] + [cmd];
    }
  }

  lemma SessionNext(cmds: seq<Command>, cmd: Command)
    ensures Session(cmds + [cmd]) == Step(Session(cmds), cmd)
  {
    StartOk();
    RunNext(START, cmds, cmd);
  }

  lemma RemoveLeaves(b: Book, x: Ticket)
    requires BookOk(b) && x in Tickets(b)
    ensures Remove(b, x).nextId == b.nextId
    ensures forall y {:trigger y in Tickets(Remove(b, x))} ::
              y in Tickets(Remove(b, x)) ==> y in Tickets(b) && y.id != x.id
  {
    RemoveKeeps(b, x);
    forall y | y in Tickets(Remove(b, x)) ensures y in Tickets(b) && y.id != x.id {
      if y.id == x.id {
        UniqueIds(b, x, y);
      }
    }
  }

  /** Booking a fill on a shelf; a level that it leaves without volume and without orders goes. */
  function Charged(ls: Shelf, s: Side, p: Price, quantity: Quantity): Shelf {
    var k := LowerBound(ls, s, p);
    if !(k < |ls| && ls[k].price == p) then ls
    else
      var volume := Wrap(ls[k].volume - quantity);
      if volume == 0 && |ls[k].orders| == 0 then ls[..k] + ls[k + 1..] else ls[k := ls[k].(volume := volume)]
  }

  /** In a book in agreement, bids go down in price and asks go up. */
  lemma PricesSorted(b: Book)
    requires BookOk(b)
    ensures forall i, j :: 0 <= i < j < |b.bids| ==> b.bids[i].price > b.bids[j].price
    ensures forall i, j :: 0 <= i < j < |b.asks| ==> b.asks[i].price < b.asks[j].price
  {
    forall i, j | 0 <= i < j < |b.bids| ensures b.bids[i].price > b.bids[j].price {
      LevelAt(b.bids, Buy, j);
    }
    forall i, j | 0 <= i < j < |b.asks| ensures b.asks[i].price < b.asks[j].price {
      LevelAt(b.asks, Sell, j);
    }
  }

  class OrderBook {
    var bids: Shelf
    var asks: Shelf
    var index: Index
    var orderCounter: OrderID
    var tradeCounter: TradeID
    const scratch: array<Event>
    var scratchCounter: nat
    var overrun: bool           // the answer to the last command fell behind the buffer

    ghost var model: Book
    ghost var nodes: set<Order>           // the order objects this book has owned
    ghost var fills: seq<Types.Fill>      // every fill made so far
    ghost var commands: seq<Command>      // every command applied so far

    /** The buffer has room for its counter. */
    ghost predicate TapeOk()
      reads this
    {
      scratch.Length == MAX_EVENTS && scratchCounter <= MAX_EVENTS
    }

    /** The objects and the index are laid out as in the model; quantities are not looked at. */
    ghost predicate Shaped()
      reads this
    {
      && TapeOk()
      && Linked(bids, asks, index, model)
      && orderCounter == model.nextId
      && forall id {:trigger index[id]} :: id in index ==> index[id].node in nodes
    }

    /** Every order object has the value that the model gives it. */
    ghost predicate Valued()
      reads this, nodes
    {
      forall x {:trigger x in Tickets(model)} ::
        x in Tickets(model) ==> x.id in index && index[x.id].node in nodes && index[x.id].node.View() == x
    }

    ghost predicate Valid()
      reads this, nodes
    {
      Shaped() && Valued()
    }

    /** The order object that the index holds for its id. */
    ghost predicate Owns(order: Order)
      reads this
    {
      order in nodes && order.id in index && index[order.id].node == order
    }

    /** What has been written for the current command. */
    ghost function Written(): Tape
      requires TapeOk()
      reads this, scratch
    {
      Tape(scratch[..scratchCounter], tradeCounter, overrun)
    }

    constructor ()
      ensures Live() && fresh(scratch) && nodes == {}
      ensures commands == [] && Written() == Tape([], 1, false)
    {
      bids, asks, index := [], [], map[];
      orderCounter, tradeCounter := 1, 1;
      scratch := new Event[MAX_EVENTS](_ => Event.None);
      scratchCounter, overrun := 0, false;
      model, nodes, fills, commands := EMPTY, {}, [], [];
      new;
      StartOk();
    }

    // ---- Reading -------------------------------------------------------------------------

    /** The order with this id, if one rests. */
    method FindOrder(id: OrderID) returns (r: Order?)
      requires Valid()
      ensures r == null <==> id !in model.index
      ensures r != null ==> Owns(r) && r.id == id && r.View() in Tickets(model)
    {
      if id !in index {
        return null;
      }
      ghost var x := Lookup(model, id);
      r := index[id].node;
    }

    /** The order that price-time priority puts first on the side `s`. */
    method GetBest(s: Side) returns (r: Order?)
      requires Valid()
      ensures r == null <==> Elems(Ladder(model, s)) == {}
      ensures r == null <==> |Ladder(model, s)| == 0
      ensures r != null ==> Owns(r) && |Ladder(model, s)| > 0 && |Ladder(model, s)[0].orders| > 0
      ensures r != null ==> r.View() == Ladder(model, s)[0].orders[0] && r.View() in Tickets(model)
      ensures r != null ==> IsBest(Elems(Ladder(model, s)), s, r.View())
    {
      var ls := Pick(s, bids, asks);
      assert Mirrored(ls, Ladder(model, s), index);
      if |ls| == 0 {
        assert Queue(Ladder(model, s)) == [];
        return null;
      }
      TopOf(ls, model, s, index);
      ghost var x := Ladder(model, s)[0].orders[0];
      BestOnTop(model, s);
      r := ls[0].orders[0];
      assert x in Tickets(model);
    }

    method GetBestBid() returns (r: Order?)
      requires Valid()
      ensures r == null <==> Elems(model.bids) == {}
      ensures r != null ==> IsBest(Elems(model.bids), Buy, r.View())
      ensures r != null ==>
                forall y {:trigger y in Elems(model.bids)} :: y in Elems(model.bids) ==>
                  y.terms.price < r.terms.price || (y.terms.price == r.terms.price && y.id >= r.id)
    {
      r := GetBest(Buy);
    }

    method GetBestAsk() returns (r: Order?)
      requires Valid()
      ensures r == null <==> Elems(model.asks) == {}
      ensures r != null ==> IsBest(Elems(model.asks), Sell, r.View())
      ensures r != null ==>
                forall y {:trigger y in Elems(model.asks)} :: y in Elems(model.asks) ==>
                  y.terms.price > r.terms.price || (y.terms.price == r.terms.price && y.id >= r.id)
    {
      r := GetBest(Sell);
    }

    /** The cached volume at a price, and zero where there is no level. */
    method GetVolumeAtPrice(s: Side, p: Price) returns (volume: Quantity)
      requires Valid()
      ensures forall l {:trigger l in Ladder(model, s)} :: l in Ladder(model, s) && l.price == p ==> volume == l.volume
      ensures (forall l {:trigger l in Ladder(model, s)} :: l in Ladder(model, s) ==> l.price != p) ==> volume == 0
    {
      var ls := Pick(s, bids, asks);
      var k := LowerBound(ls, s, p);
      LevelAtPrice(ls, model, s, index, p);
      volume := if k < |ls| && ls[k].price == p then ls[k].volume else 0;
    }

    /**
     The first levels of a side, best first, each with its price and cached volume: as many as the
     depth says if there are so many, and all of them at the greatest depth, which no counter exceeds.
     */
    method SnapshotSide(s: Side, depth: Depth) returns (levels: seq<SnapshotLevel>)
      requires Valid()
      ensures |levels| == if depth < |Ladder(model, s)| && depth < 0xFFFF_FFFF then depth else |Ladder(model, s)|
      ensures forall i {:trigger levels[i]} :: 0 <= i < |levels| ==>
                levels[i] == SnapshotLevel(Ladder(model, s)[i].price, Ladder(model, s)[i].volume)
    {
      hide LadderOk, Ladders.LowerBound, BookOk;
      var ls, curr: Depth := Pick(s, bids, asks), 0;
      ghost var ms := Ladder(model, s);
      assert Mirrored(ls, ms, index);
      levels := [];
      for i := 0 to |ls|
        invariant i <= |ms| && |levels| == i && (i < 0x1_0000_0000 ==> curr == i)
        invariant i <= depth || depth == 0xFFFF_FFFF
        invariant forall k {:trigger levels[k]} :: 0 <= k < i ==> levels[k] == SnapshotLevel(ms[k].price, ms[k].volume)
      {
        curr := (curr + 1) % 0x1_0000_0000;
        if curr > depth {
          return;
        }
        MirrorAt(ls, ms, index, i);
        levels := levels + [SnapshotLevel(ls[i].price, ls[i].volume)];
      }
    }

    /** The best levels of both sides, up to a depth. */
    method GetSnapshot(depth: Depth) returns (snapshot: Snapshot)
      requires Valid()
      ensures |snapshot.bids| == if depth < |model.bids| && depth < 0xFFFF_FFFF then depth else |model.bids|
      ensures |snapshot.asks| == if depth < |model.asks| && depth < 0xFFFF_FFFF then depth else |model.asks|
      ensures forall i {:trigger snapshot.bids[i]} :: 0 <= i < |snapshot.bids| ==>
                snapshot.bids[i] == SnapshotLevel(model.bids[i].price, model.bids[i].volume)
      ensures forall i {:trigger snapshot.asks[i]} :: 0 <= i < |snapshot.asks| ==>
                snapshot.asks[i] == SnapshotLevel(model.asks[i].price, model.asks[i].volume)
      ensures forall i, j :: 0 <= i < j < |snapshot.bids| ==> snapshot.bids[i].price > snapshot.bids[j].price
      ensures forall i, j :: 0 <= i < j < |snapshot.asks| ==> snapshot.asks[i].price < snapshot.asks[j].price
    {
      var shownBids := SnapshotSide(Buy, depth);
      var shownAsks := SnapshotSide(Sell, depth);
      snapshot := Snapshot(shownBids, shownAsks);
      PricesSorted(model);
    }

    // ---- Changing ------------------------------------------------------------------------

    method SetShelf(s: Side, ls: Shelf)
      modifies this`bids, this`asks
      ensures bids == Pick(s, ls, old(bids)) && asks == Pick(s, old(asks), ls)
    {
      if s == Buy {
        bids := ls;
      } else {
        asks := ls;
      }
    }

    /** Books a fill: the level gives up the quantity, and the trade is written if there is room. */
    method RecordFill(maker: ClientID, taker: ClientID, price: Price, quantity: Quantity, side: Side,
                      matching: MatchType)
      requires TapeOk()
      modifies this`bids, this`asks, this`scratchCounter, this`tradeCounter, scratch
      ensures TapeOk()
      ensures var ls := Charged(old(Pick(side, bids, asks)), side, price, quantity);
              bids == Pick(side, ls, old(bids)) && asks == Pick(side, old(asks), ls)
      ensures Written()
           == Write(old(Written()), Trade(old(tradeCounter), maker, taker, price, quantity, side, matching))
    {
      var ls := Pick(side, bids, asks);
      var k := LowerBound(ls, side, price);
      if k < |ls| && ls[k].price == price {
        var volume := Wrap(ls[k].volume - quantity);
        if volume == 0 && |ls[k].orders| == 0 {
          SetShelf(side, ls[..k] + ls[k + 1..]);
        } else {
          SetShelf(side, ls[k := ls[k].(volume := volume)]);
        }
      }
      if scratchCounter < MAX_EVENTS {
        scratch[scratchCounter] := Reported(Trade(tradeCounter, maker, taker, price, quantity, side, matching));
        scratchCounter, tradeCounter := scratchCounter + 1, tradeCounter + 1;
      }
    }

    /** Takes a node out of its list and sets the level's volume; the level goes with its last node. */
    method EraseNode(s: Side, i: nat, j: nat, volume: Quantity)
      requires i < |Pick(s, bids, asks)| && j < |Pick(s, bids, asks)[i].orders|
      modifies this`bids, this`asks
      ensures var ls := Erased(old(Pick(s, bids, asks)), i, j, volume);
              bids == Pick(s, ls, old(bids)) && asks == Pick(s, old(asks), ls)
    {
      var ls := Pick(s, bids, asks);
      var rest := ls[i].orders[..j] + ls[i].orders[j + 1..];
      if |rest| == 0 {
        SetShelf(s, ls[..i] + ls[i + 1..]);
      } else {
        SetShelf(s, ls[i := Level(ls[i].price, volume, rest)]);
      }
    }

    /** Takes a resting order off the book for its owner. */
    method InternalCancelOrder(client: ClientID, id: OrderID) returns (code: ErrorCode)
      requires Valid()
      modifies this`bids, this`asks, this`index, this`model
      ensures Valid()
      ensures model == CancelOrder(old(model), client, id).book && code == CancelOrder(old(model), client, id).code
    {
      hide BookOk, Remove, Mirrored, LadderOk, LowerBound, IndexOf, Tickets, Elems, Queue, SameOrders, Erased;
      if id !in index {
        return InvalidCancel;
      }
      var entry := index[id];
      var node := entry.node;
      ghost var x := Lookup(model, id);
      assert node.View() == x;
      if node.terms.client != client {
        return Unauthorized;
      }
      var side := node.terms.side;
      SlotOf(bids, asks, index, model, x);
      var ls := Pick(side, bids, asks);
      var i := LowerBound(ls, side, entry.level);
      var j := IndexOf(ls[i].orders, node);
      var volume := if node.terms.flags.hidden then ls[i].volume else Wrap(ls[i].volume - node.remaining);
      LinkRemove(bids, asks, index, model, x, Erased(ls, i, j, volume));
      RemoveLeaves(model, x);
      EraseNode(side, i, j, volume);
      index := index - {id};
      model := Remove(model, x);
      code := Success;
    }

    /** The fill-or-kill scan: sums the volumes of crossing levels until they suffice. */
    method Scan(r: Request) returns (available: Quantity)
      requires Valid()
      ensures available == Available(Facing(model, r), r, 0)
    {
      hide BookOk, LadderOk;
      var ls := Pick(r.side.Opposite(), bids, asks);
      ghost var ms := Facing(model, r);
      available := 0;
      var i := 0;
      assert ms[0..] == ms;
      while i < |ls|
        invariant i <= |ls| == |ms|
        invariant Available(ms, r, 0) == Available(ms[i..], r, available)
      {
        MirrorAt(ls, ms, index, i);
        assert ms[i..][1..] == ms[i + 1..];
        if r.kind != Market && (if r.side == Buy then r.price < ls[i].price else r.price > ls[i].price) {
          break;
        }
        available := Wrap(available + ls[i].volume);
        if available >= r.quantity {
          break;
        }
        i := i + 1;
      }
    }

    /** Puts an order at the back of the level at its price, which is made if there is none. */
    method Rest(order: Order)
      requires Valid() && RestFits(model, order.View())
      modifies this`bids, this`asks, this`index, this`model, this`nodes
      ensures Valid() && nodes == old(nodes) + {order}
      ensures model == Insert(old(model), order.View())
    {
      hide BookOk, Insert, Mirrored, LadderOk, LowerBound, Tickets, Elems, Queue;
      var side, price := order.terms.side, order.terms.price;
      var ls := Pick(side, bids, asks);
      var k := LowerBound(ls, side, price);
      if !(k < |ls| && ls[k].price == price) {
        ls := ls[..k] + [Level(price, 0, [])] + ls[k..];
      }
      var volume := if order.terms.flags.hidden then ls[k].volume else Wrap(ls[k].volume + order.remaining);
      ls := ls[k := Level(price, volume, ls[k].orders + [order])];
      LinkInsert(bids, asks, index, model, order.View(), order, ls);
      SetShelf(side, ls);
      index := index[order.id := Entry(order, price)];
      nodes := nodes + {order};
      model := Insert(model, order.View());
    }

    /** The checks that an order has to pass before it takes an id. */
    method PreCheck(r: Request) returns (code: ErrorCode)
      requires Valid()
      ensures code == Success <==> Accepts(model, r)
      ensures code != Success ==> AddOrder(model, r) == Outcome(model, code, [], [])
    {
      hide BookOk, Linked, MatchLadder, Available, Settle, AfterMatch;
      if r.matching != Standard {
        return InvalidRequest;
      }
      if r.tif == FOK {
        var available := Scan(r);
        if r.quantity > available {
          return InsufficientLiquidity;
        }
      }
      if r.kind == Limit && r.flags.postOnly {
        var blocked := MeetsTop(r);
        if blocked {
          return PostOnlyViolation;
        }
      }
      code := Success;
    }

    /** Gives the order its id and matches it. */
    method MatchNew(r: Request) returns (order: Order)
      requires Valid()
      modifies nodes, this`bids, this`asks, this`index, this`model, this`fills
      modifies this`orderCounter, this`scratchCounter, this`tradeCounter, scratch
      ensures Valid() && fresh(order) && order !in nodes
      ensures var b := old(model);
              && model == AfterMatch(b, r) && order.View() == MatchOf(b, r).taker
              && fills == old(fills) + MatchOf(b, r).fills
              && Written() == RecordAll(old(Written()), MatchOf(b, r).fills)
    {
      hide BookOk, MatchLadder, Tickets, Mirrored;
      ghost var b := model;
      order := new Order(orderCounter, r);
      orderCounter := orderCounter + 1;
      Bumped(bids, asks, index, b);
      model := b.(nextId := b.nextId + 1);
      Match(order, this);
    }

    /**
     What becomes of the quantity that is left: its time in force decides whether it rests, is
     discarded or is refused.
     */
    method Dispose(order: Order) returns (code: ErrorCode)
      requires Valid()
      requires order.remaining > 0 && Rests(order.terms) ==> RestFits(model, order.View())
      modifies this`bids, this`asks, this`index, this`model, this`nodes
      ensures Valid() && nodes <= old(nodes) + {order}
      ensures (model, code) == (Settle(old(model), order.View()).0, Settle(old(model), order.View()).1)
    {
      hide BookOk, Insert, Tickets, Linked;
      if order.IsFilled() {
        return Success;
      }
      match order.terms.tif {
        case IOC | FOK => return Success;
        case Day | GTC =>
          if order.terms.kind == Market {
            return InvalidOrderCombination;
          }
        case GTD | ATO => return NotImplemented;
        case _ => return UnsupportedTimeInForce;
      }
      Rest(order);
      code := Success;
    }

    /** Adds an order: checks, matching, and what its time in force says about the rest. */
    method InternalAddOrder(r: Request) returns (code: ErrorCode)
      requires Valid()
      modifies nodes, this`bids, this`asks, this`index, this`model, this`nodes, this`fills
      modifies this`orderCounter, this`scratchCounter, this`tradeCounter, scratch
      ensures Valid() && fresh(nodes - old(nodes))
      ensures var o := AddOrder(old(model), r);
              && model == o.book && code == o.code && fills == old(fills) + o.fills
              && Written() == RecordAll(old(Written()), o.fills)
    {
      hide BookOk, Insert, MatchLadder, AfterMatch, Available, Tickets, Mirrored, Kills, PostOnlyBlocks, Settle;
      ghost var b := model;
      code := PreCheck(r);
      if code == Success {
        var order := MatchNew(r);
        TakerTerms(b, r);
        if order.remaining > 0 && Rests(r) {
          RestingFits(b, r);
        }
        code := Dispose(order);
      }
    }

    /** Whether the best price on the other side would trade with the request. */
    method MeetsTop(r: Request) returns (meets: bool)
      requires Valid()
      ensures meets <==> |Facing(model, r)| > 0 && Crosses(r.side, Limit, r.price, Facing(model, r)[0].price)
    {
      var ls := Pick(r.side.Opposite(), bids, asks);
      assert Mirrored(ls, Facing(model, r), index);
      meets := |ls| > 0 && if r.side == Buy then r.price >= ls[0].price else r.price <= ls[0].price;
    }

    /** Shrinks a resting order in place; its level's volume loses the wrapped difference. */
    method Reduce(node: Order, quantity: Quantity)
      requires Valid() && Owns(node) && node.View() in Tickets(model) && quantity <= node.remaining
      modifies node, this`bids, this`asks, this`model
      ensures Valid()
      ensures model == Shrink(old(model), old(node.View()), quantity)
    {
      hide BookOk, Update, Mirrored, LadderOk, LowerBound, Tickets, Elems, Queue, SameOrders;
      ghost var x := node.View();
      SlotOf(bids, asks, index, model, x);
      var side := node.terms.side;
      var diff := node.UpdateQuantity(quantity);
      var ls := Pick(side, bids, asks);
      var k := LowerBound(ls, side, index[node.id].level);
      if !node.terms.flags.hidden {
        ls := ls[k := ls[k].(volume := Wrap(ls[k].volume - diff))];
      }
      LinkUpdate(bids, asks, index, model, x, quantity, ShrinkDelta(x, quantity), ls);
      OthersStand(model, x, quantity, ShrinkDelta(x, quantity));
      SetShelf(side, ls);
      model := Shrink(model, x, quantity);
    }

    /**
     A new price or a larger quantity moves the order to the back under a new id; a smaller one
     shrinks it where it is.
     */
    method InternalModifyOrder(client: ClientID, id: OrderID, price: Price, quantity: Quantity)
      returns (code: ErrorCode)
      requires Valid()
      modifies nodes, this`bids, this`asks, this`index, this`model, this`nodes, this`fills
      modifies this`orderCounter, this`scratchCounter, this`tradeCounter, scratch
      ensures Valid() && fresh(nodes - old(nodes))
      ensures var o := ModifyOrder(old(model), client, id, price, quantity);
              && model == o.book && code == o.code && fills == old(fills) + o.fills
              && Written() == RecordAll(old(Written()), o.fills)
    {
      hide BookOk, LadderOk, Mirrored, AddOrder, Shrink, Tickets;
      if id !in index {
        return InvalidModify;
      }
      var node := index[id].node;
      ghost var x := Lookup(model, id);
      assert node.View() == x;
      if node.terms.client != client {
        return Unauthorized;
      }
      if price != node.terms.price || quantity > node.remaining {
        var request := node.terms.(price := price, quantity := quantity);
        code := InternalCancelOrder(client, id);
        if code == Success {
          code := InternalAddOrder(request);
        }
        if code != Success {
          code := InvalidModify;
        }
      } else {
        if quantity < node.remaining {
          Reduce(node, quantity);
        }
        code := Success;
      }
    }

    // ---- Commands ------------------------------------------------------------------------

    /** Writes the answer, without looking whether the trades have left room for it. */
    method WriteAnswer(e: Event)
      requires TapeOk()
      modifies scratch, this`scratchCounter, this`overrun
      ensures TapeOk() && Written() == Answer(old(Written()), e)
    {
      if scratchCounter < MAX_EVENTS {
        scratch[scratchCounter] := e;
        scratchCounter := scratchCounter + 1;
      } else {
        overrun := true;
      }
    }

    method HandleAdd(r: Request)
      requires Valid()
      modifies this, nodes, scratch
      ensures Valid() && fresh(nodes - old(nodes)) && commands == old(commands)
      ensures var o := Commands.Apply(old(model), Add(r));
              && model == o.book && fills == old(fills) + o.fills
              && model.nextId > 0
              && Written() == Answer(RecordAll(old(Written()), o.fills), AnswerTo(Add(r), o.code, model.nextId))
    {
      hide AddOrder, LadderOk, Mirrored, Tickets, TicketsOk;
      var code := InternalAddOrder(r);
      if code == Success {
        WriteAnswer(OrderAccepted(r.client, orderCounter - 1));
      } else {
        WriteAnswer(OrderRejected(r.client, code));
      }
    }

    method HandleModify(client: ClientID, id: OrderID, price: Price, quantity: Quantity)
      requires Valid()
      modifies this, nodes, scratch
      ensures Valid() && fresh(nodes - old(nodes)) && commands == old(commands)
      ensures var cmd := Modify(client, id, price, quantity);
              var o := Commands.Apply(old(model), cmd);
              && model == o.book && fills == old(fills) + o.fills
              && model.nextId > 0
              && Written() == Answer(RecordAll(old(Written()), o.fills), AnswerTo(cmd, o.code, model.nextId))
    {
      hide ModifyOrder, LadderOk, Mirrored, Tickets, TicketsOk;
      var code := InternalModifyOrder(client, id, price, quantity);
      if code == Success {
        WriteAnswer(ModifyAccepted(client, id, id));
      } else {
        WriteAnswer(ModifyRejected(client, id, code));
      }
    }

    method HandleCancel(client: ClientID, id: OrderID)
      requires Valid()
      modifies this, nodes, scratch
      ensures Valid() && fresh(nodes - old(nodes)) && commands == old(commands)
      ensures var cmd := Cancel(client, id);
              var o := Commands.Apply(old(model), cmd);
              && model == o.book && fills == old(fills) + o.fills
              && model.nextId > 0
              && Written() == Answer(RecordAll(old(Written()), o.fills), AnswerTo(cmd, o.code, model.nextId))
    {
      hide LadderOk, Mirrored, Tickets, TicketsOk, CancelOrder, Remove;
      CancelFillsNothing(model, client, id);
      assert fills + [] == fills;
      var code := InternalCancelOrder(client, id);
      if code == Success {
        WriteAnswer(CancelAccepted(client, id));
      } else {
        WriteAnswer(CancelRejected(client, id, code));
      }
    }

    // ---- Whole sessions ------------------------------------------------------------------

    /** The book is what the session of all commands so far has made of an empty one. */
    ghost predicate Live()
      reads this, nodes
    {
      Valid() && model == Session(commands).book && fills == FillsOf(Session(commands).log)
    }

    /** Applies a command and returns what it reports. */
    method Apply(cmd: Command) returns (events: seq<Event>)
      requires Live()
      modifies this, nodes, scratch
      ensures Live() && fresh(nodes - old(nodes)) && commands == old(commands) + [cmd]
      ensures model == Commands.Apply(old(model), cmd).book
      ensures fills == old(fills) + Commands.Apply(old(model), cmd).fills
      ensures Written() == Emit(old(model), cmd, old(tradeCounter)) && events == Written().events
    {
      hide BookOk, Linked, AddOrder, ModifyOrder, CancelOrder, Tickets, TicketsOk, Session, Commands.FillsOf;
      ghost var b := model;
      ApplyKeeps(b, cmd);
      SessionNext(commands, cmd);
      LogFills(b, cmd);
      FillsOfJoin(Session(commands).log, Commands.Apply(b, cmd).log);
      scratchCounter, overrun := 0, false;
      assert Written() == Tape([], old(tradeCounter), false);
      match cmd {
        case NoCommand => assert fills + [] == fills;
        case Add(r) => HandleAdd(r);
        case Modify(client, id, price, quantity) => HandleModify(client, id, price, quantity);
        case Cancel(client, id) => HandleCancel(client, id);
      }
      commands := commands + [cmd];
      events := scratch[..scratchCounter];
    }
  }

  // ---- The matcher -----------------------------------------------------------------------

  lemma WrapDifference(a: Quantity, b: Quantity)
    ensures Wrap(a - b) == if b <= a then a - b else TWO_TO_THE_64 + a - b
  {
  }

  /** Taking a level out moves those behind it up by one. */
  lemma TakenOut<T>(ls: seq<T>, k: nat)
    requires k < |ls|
    ensures var out := ls[..k] + ls[k + 1..];
            && |out| == |ls| - 1
            && forall i {:trigger out[i]} :: 0 <= i < |out| ==> out[i] == ls[if i < k then i else i + 1]
  {
  }

  /**
   Position by position: where there is no level at the price nothing happens; the level at position
   `k` goes exactly when it has no orders and the fill takes all of its volume; and all others stay.
   */
  lemma ChargedExactly(ls: Shelf, s: Side, p: Price, quantity: Quantity, k: nat)
    requires k == LowerBound(ls, s, p)
    ensures var out := Charged(ls, s, p, quantity);
            if !(k < |ls| && ls[k].price == p) then out == ls
            else if ls[k].orders == [] && ls[k].volume == quantity then
              && |out| == |ls| - 1
              && forall i {:trigger out[i]} :: 0 <= i < |out| ==> out[i] == ls[if i < k then i else i + 1]
            else
              var rest := ls[k].volume - quantity;
              && |out| == |ls|
              && out[k] == Level(p, if rest < 0 then TWO_TO_THE_64 + rest else rest, ls[k].orders)
              && forall i {:trigger out[i]} :: 0 <= i < |out| && i != k ==> out[i] == ls[i]
  {
    hide LowerBound, Wrap;
    if k < |ls| {
      WrapDifference(ls[k].volume, quantity);
      TakenOut(ls, k);
    }
  }

  /** Booking a fill against a resting order never erases its level, because the order is still in it. */
  lemma ChargedIsUpdate(bids: Shelf, asks: Shelf, index: Index, b: Book, x: Ticket, left: Quantity, quantity: Quantity)
    requires Linked(bids, asks, index, b) && x in Tickets(b) && left <= x.remaining
    ensures var s := x.terms.side;
            var out := Charged(Pick(s, bids, asks), s, x.terms.price, quantity);
            Linked(Pick(s, out, bids), Pick(s, asks, out), index, Update(b, x, left, 0 - quantity))
  {
    hide Update, Mirrored, LadderOk, TicketsOk, Elems, Queue, SameOrders;
    var s := x.terms.side;
    SlotOf(bids, asks, index, b, x);
    LinkUpdate(bids, asks, index, b, x, left, 0 - quantity, Charged(Pick(s, bids, asks), s, x.terms.price, quantity));
  }

  /** Both orders give up the smaller of their quantities, and the book records the fill. */
  method Exchange(order: Order, top: Order, book: OrderBook)
    requires book.Valid() && order !in book.nodes && top.View() in Tickets(book.model) && book.Owns(top)
    modifies order, top, book`bids, book`asks, book`model, book`fills
    modifies book`scratchCounter, book`tradeCounter, book.scratch
    ensures book.Valid()
    ensures var quantity := Min(old(order.remaining), old(top.remaining));
            var f := Types.Fill(old(order.View()), old(top.View()), quantity);
            && book.model == Update(old(book.model), old(top.View()), old(top.remaining) - quantity, 0 - quantity)
            && order.View() == AfterFill(old(order.View()), quantity)
            && top.View() == AfterFill(old(top.View()), quantity) && top.View() in Tickets(book.model)
            && book.fills == old(book.fills) + [f]
            && book.Written() == Record(old(book.Written()), f)
  {
    hide BookOk, Update, Remove, Mirrored, LadderOk, LowerBound, IndexOf, Tickets, Elems, Queue, SameOrders, Charged;
    var quantity := Min(order.remaining, top.remaining);
    ghost var x := top.View();
    ghost var f := Types.Fill(order.View(), x, quantity);
    ghost var left: Quantity := top.remaining - quantity;
    ghost var d := 0 - quantity as int;
    order.Fill(quantity);
    top.Fill(quantity);
    var price := top.terms.price;
    ChargedIsUpdate(book.bids, book.asks, book.index, book.model, x, left, quantity);
    OthersStand(book.model, x, left, d);
    book.RecordFill(order.terms.client, top.terms.client, price, quantity, top.terms.side, order.terms.matching);
    book.model := Update(book.model, x, left, d);
    book.fills := book.fills + [f];
  }

  /** A client's cancel of its own resting order succeeds and removes that order. */
  lemma CancelOwn(b: Book, x: Ticket)
    requires BookOk(b) && x in Tickets(b)
    ensures CancelOrder(b, x.terms.client, x.id).book == Remove(b, x)
    ensures CancelOrder(b, x.terms.client, x.id).code == Success
  {
    assert x.id in b.index;
    UniqueIds(b, x, Lookup(b, x.id));
  }

  /** One round of matching: `order` trades with the best order facing it, which leaves the book when it is filled. */
  method Execute(order: Order, top: Order, book: OrderBook)
    requires book.Valid() && order !in book.nodes && top.View() in Tickets(book.model) && book.Owns(top)
    modifies order, top, book`bids, book`asks, book`index, book`model, book`fills
    modifies book`scratchCounter, book`tradeCounter, book.scratch
    ensures book.Valid()
    ensures var quantity := Min(old(order.remaining), old(top.remaining));
            var f := Types.Fill(old(order.View()), old(top.View()), quantity);
            && book.model == Round(old(book.model), old(top.View()), old(top.remaining) - quantity, 0 - quantity)
            && order.View() == AfterFill(old(order.View()), quantity)
            && book.fills == old(book.fills) + [f]
            && book.Written() == Record(old(book.Written()), f)
  {
    hide BookOk, Update, Remove, Mirrored, Tickets, CancelOrder;
    Exchange(order, top, book);
    if top.IsFilled() {
      CancelOwn(book.model, top.View());
      var code := book.InternalCancelOrder(top.terms.client, top.id);
      assert code == Success;
    }
  }

  /** Matches `order` against the other side of the book until it is filled or nothing it meets crosses. */
  method Match(order: Order, book: OrderBook)
    requires book.Valid() && order !in book.nodes
    modifies order, book.nodes, book`bids, book`asks, book`index, book`model, book`fills
    modifies book`scratchCounter, book`tradeCounter, book.scratch
    ensures book.Valid()
    ensures var b, s := old(book.model), order.terms.side.Opposite();
            var m := MatchLadder(Ladder(b, s), old(order.View()));
            && book.model == WithLadder(b, s, m.ladder).(index := b.index - FilledIds(m.fills))
            && order.View() == m.taker
            && book.fills == old(book.fills) + m.fills
            && book.Written() == RecordAll(old(book.Written()), m.fills)
  {
    hide BookOk, Round, OnCourse, OnlyFilled, Mirrored, LadderOk, MatchLadder, Tickets, Elems, Queue;
    var side, facing := order.terms.side, order.terms.side.Opposite();
    ghost var b, t, done := book.model, order.View(), [];
    UnderwayStart(b, t);
    while order.remaining > 0
      invariant book.Valid()
      invariant Underway(b, t, book.model, order.View(), done)
      invariant book.fills == old(book.fills) + done
      invariant book.Written() == RecordAll(old(book.Written()), done)
      decreases Ahead(book.model, facing), order.remaining
    {
      var top := book.GetBest(facing);
      if top == null {
        break;
      }
      TopTicket(book.model, facing);
      if order.terms.kind != Market
        && (if side == Buy then order.terms.price < top.terms.price else order.terms.price > top.terms.price) {
        break;
      }
      ghost var f := Types.Fill(order.View(), top.View(), Min(order.remaining, top.remaining));
      UnderwayStep(b, t, book.model, order.View(), done, f);
      RecordOneMore(old(book.Written()), done, f);
      Execute(order, top, book);
      done := done + [f];
    }
    UnderwayStop(b, t, book.model, order.View(), done);
  }
}
