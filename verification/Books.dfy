/**
 The book as a value: two ladders of tickets, the index from ids to levels, and the next id.
 `BookOk` is the agreement of its redundant parts; the edits below are the only ones the engine
 makes, and each is shown to keep `BookOk` and to change the flat set of tickets by one element.
 */
module Books {
  import opened Types
  import opened Ladders

  /** Where the index says an order lives. */
  datatype Home = Home(side: Side, price: Price)

  datatype Book = Book(bids: seq<Level<Ticket>>, asks: seq<Level<Ticket>>,
                       index: map<OrderID, Home>, nextId: OrderID)

  const EMPTY: Book := Book([], [], map[], 1)

  function Ladder(b: Book, s: Side): seq<Level<Ticket>> {
    if s == Buy then b.bids else b.asks
  }

  function WithLadder(b: Book, s: Side, ls: seq<Level<Ticket>>): Book {
    if s == Buy then b.(bids := ls) else b.(asks := ls)
  }

  function AsSet(q: seq<Ticket>): set<Ticket> {
    set x | x in q
  }

  /** The tickets of a ladder as a flat set. */
  function Elems(ls: seq<Level<Ticket>>): set<Ticket> {
    AsSet(Queue(ls))
  }

  function Tickets(b: Book): set<Ticket> {
    Elems(b.bids) + Elems(b.asks)
  }

  /** Only Day and GTC limit-like orders with standard matching ever rest. */
  predicate Restable(x: Ticket) {
    x.terms.matching == Standard && x.terms.kind != Market && (x.terms.tif == Day || x.terms.tif == GTC)
  }

  /** Earlier orders have lower ids. */
  ghost predicate Fifo(orders: seq<Ticket>) {
    |orders| == 0 || ((|orders| > 1 ==> orders[0].id < orders[1].id) && Fifo(orders[1..]))
  }

  ghost predicate AllAt(orders: seq<Ticket>, s: Side, p: Price) {
    |orders| == 0 || (orders[0].terms.side == s && orders[0].terms.price == p && AllAt(orders[1..], s, p))
  }

  ghost predicate LevelOk(l: Level<Ticket>, s: Side) {
    |l.orders| > 0 && AllAt(l.orders, s, l.price) && Fifo(l.orders)
  }

  /** Levels in strict price order, best first, none of them empty, each FIFO. */
  ghost predicate LadderOk(ls: seq<Level<Ticket>>, s: Side) {
    |ls| == 0 || (LevelOk(ls[0], s) && (|ls| > 1 ==> Better(s, ls[0].price, ls[1].price)) && LadderOk(ls[1..], s))
  }

  ghost predicate TicketOk(x: Ticket, index: map<OrderID, Home>, nextId: OrderID) {
    && x.id in index && index[x.id] == Home(x.terms.side, x.terms.price)
    && 0 < x.id < nextId
    && x.remaining <= x.terms.quantity
    && Restable(x)
  }

  function Ids(ts: set<Ticket>): set<OrderID> {
    set x | x in ts :: x.id
  }

  ghost predicate TicketsOk(ts: set<Ticket>, index: map<OrderID, Home>, nextId: OrderID) {
    && (forall x {:trigger x in ts} :: x in ts ==> TicketOk(x, index, nextId))
    && index.Keys == Ids(ts)
  }

  /** The three representations agree: sorted non-empty FIFO levels, unique ids, exact index. */
  ghost predicate BookOk(b: Book) {
    && b.nextId > 0
    && LadderOk(b.bids, Buy)
    && LadderOk(b.asks, Sell)
    && TicketsOk(Tickets(b), b.index, b.nextId)
  }

  ghost function Lookup(b: Book, id: OrderID): (x: Ticket)
    requires BookOk(b) && id in b.index
    ensures x in Tickets(b) && x.id == id
  {
    assert id in Ids(Tickets(b));
    var x :| x in Tickets(b) && x.id == id;
    x
  }

  // ---- Positions -------------------------------------------------------------------------

  lemma {:induction false} FifoHead(orders: seq<Ticket>, j: nat)
    requires Fifo(orders) && j < |orders|
    ensures IndexOf(orders, orders[j]) == j
    ensures j > 0 ==> orders[0].id < orders[j].id
  {
    if j == 0 {
    } else {
      assert orders[1..][j - 1] == orders[j];
      FifoHead(orders[1..], j - 1);
    }
  }

  lemma {:induction false} LevelAt(ls: seq<Level<Ticket>>, s: Side, i: nat)
    requires LadderOk(ls, s) && i < |ls|
    ensures LevelOk(ls[i], s) && LowerBound(ls, s, ls[i].price) == i
    ensures i > 0 ==> Better(s, ls[0].price, ls[i].price)
  {
    if i == 0 {
    } else {
      assert ls[1..][i - 1] == ls[i];
      LevelAt(ls[1..], s, i - 1);
    }
  }

  lemma {:induction false} TermsAt(orders: seq<Ticket>, s: Side, p: Price, x: Ticket)
    requires AllAt(orders, s, p) && x in orders
    ensures x.terms.side == s && x.terms.price == p
  {
    if x != orders[0] {
      TermsAt(orders[1..], s, p, x);
    }
  }

  /** What stands at slot `j` of level `i` has that level's price and is found there again. */
  lemma LocateAt(ls: seq<Level<Ticket>>, s: Side, i: nat, j: nat)
    requires LadderOk(ls, s) && i < |ls| && j < |ls[i].orders|
    ensures var x := ls[i].orders[j];
            && x.terms.side == s && x.terms.price == ls[i].price
            && LowerBound(ls, s, x.terms.price) == i && IndexOf(ls[i].orders, x) == j
  {
    LevelAt(ls, s, i);
    FifoHead(ls[i].orders, j);
    TermsAt(ls[i].orders, s, ls[i].price, ls[i].orders[j]);
  }

  /** A ticket of a ladder sits in the level with its price. */
  lemma {:induction false} Locate(ls: seq<Level<Ticket>>, s: Side, x: Ticket)
    requires LadderOk(ls, s) && x in Queue(ls)
    ensures var i := LowerBound(ls, s, x.terms.price);
            i < |ls| && ls[i].price == x.terms.price && x in ls[i].orders && x.terms.side == s
  {
    if x in ls[0].orders {
      TermsAt(ls[0].orders, s, ls[0].price, x);
    } else {
      Locate(ls[1..], s, x);
      LevelAt(ls, s, 1 + LowerBound(ls[1..], s, x.terms.price));
    }
  }

  /** A ladder's queue lists its tickets in strict price-time order. */
  ghost predicate InOrder(q: seq<Ticket>, s: Side) {
    |q| == 0 || ((|q| > 1 ==> Before(s, q[0], q[1])) && InOrder(q[1..], s))
  }

  lemma {:induction false} LevelInOrder(orders: seq<Ticket>, p: Price, s: Side, behind: seq<Ticket>)
    requires Fifo(orders) && AllAt(orders, s, p)
    requires InOrder(behind, s) && (|behind| > 0 ==> Better(s, p, behind[0].terms.price))
    ensures InOrder(orders + behind, s)
  {
    if |orders| == 0 {
      assert orders + behind == behind;
    } else {
      assert (orders + behind)[1..] == orders[1..] + behind;
      LevelInOrder(orders[1..], p, s, behind);
    }
  }

  lemma {:induction false} QueueInOrder(ls: seq<Level<Ticket>>, s: Side)
    requires LadderOk(ls, s)
    ensures InOrder(Queue(ls), s)
  {
    if |ls| == 0 {
    } else {
      QueueInOrder(ls[1..], s);
      LevelInOrder(ls[0].orders, ls[0].price, s, Queue(ls[1..]));
    }
  }

  lemma {:induction false} HeadIsFirst(q: seq<Ticket>, s: Side, y: Ticket)
    requires InOrder(q, s) && |q| > 0 && y in q[1..]
    ensures Before(s, q[0], y)
  {
    if y != q[1] {
      assert q[1..][1..] == q[2..];
      HeadIsFirst(q[1..], s, y);
    }
  }

  lemma {:induction false} OrderedBefore(q: seq<Ticket>, s: Side, i: nat, j: nat)
    requires InOrder(q, s) && i < j < |q|
    ensures Before(s, q[i], q[j])
    decreases i
  {
    assert q[j] == q[1..][j - 1];
    if i == 0 {
      HeadIsFirst(q, s, q[j]);
    } else {
      OrderedBefore(q[1..], s, i - 1, j - 1);
    }
  }

  lemma {:induction false} OrderedDistinct(q: seq<Ticket>, s: Side, k: nat)
    requires InOrder(q, s) && k < |q|
    ensures q[k] !in q[..k] && q[k] !in q[k + 1..]
  {
    if q[k] in q[1..] {
      HeadIsFirst(q, s, q[k]);
    }
    if k == 0 {
    } else {
      assert q[1..][k - 1] == q[k] && q[1..][..k - 1] == q[1..k] && q[1..][k..] == q[k + 1..];
      OrderedDistinct(q[1..], s, k - 1);
      assert q[k] in q[1..] && q[..k] == [q[0]] + q[1..k];
    }
  }

  lemma SidesOk(b: Book)
    requires BookOk(b)
    ensures forall s :: LadderOk(Ladder(b, s), s)
    ensures forall s, x {:trigger x in Elems(Ladder(b, s))} ::
              x in Elems(Ladder(b, s)) <==> x in Tickets(b) && x.terms.side == s
  {
    forall s, x | x in Elems(Ladder(b, s)) ensures x in Tickets(b) && x.terms.side == s {
      Locate(Ladder(b, s), s, x);
    }
    forall s, x | x in Tickets(b) && x.terms.side == s ensures x in Elems(Ladder(b, s)) {
      if x !in Elems(Ladder(b, s)) {
        Locate(Ladder(b, s.Opposite()), s.Opposite(), x);
      }
    }
  }

  lemma {:induction false} SameId(orders: seq<Ticket>, j: nat, k: nat)
    requires Fifo(orders) && j < |orders| && k < |orders| && orders[j].id == orders[k].id
    ensures j == k
  {
    if j > 0 && k > 0 {
      SameId(orders[1..], j - 1, k - 1);
    } else {
      FifoHead(orders, if j > k then j else k);
    }
  }

  /** Ids are unique: the index leads every ticket with an id to the same slot. */
  lemma UniqueIds(b: Book, x: Ticket, y: Ticket)
    requires BookOk(b) && x in Tickets(b) && y in Tickets(b) && x.id == y.id
    ensures x == y
  {
    SidesOk(b);
    var ls := Ladder(b, x.terms.side);
    assert x in Elems(ls) && y in Elems(ls);
    Locate(ls, x.terms.side, x);
    Locate(ls, x.terms.side, y);
    var i := LowerBound(ls, x.terms.side, x.terms.price);
    LevelAt(ls, x.terms.side, i);
    SameId(ls[i].orders, IndexOf(ls[i].orders, x), IndexOf(ls[i].orders, y));
  }

  // ---- The edits -------------------------------------------------------------------------

  ghost function RemoveFrom(ls: seq<Level<Ticket>>, s: Side, x: Ticket): seq<Level<Ticket>>
    requires LadderOk(ls, s) && x in Elems(ls)
  {
    Locate(ls, s, x);
    var i := LowerBound(ls, s, x.terms.price);
    EraseAt(ls, i, IndexOf(ls[i].orders, x),
            if x.terms.flags.hidden then ls[i].volume else Wrap(ls[i].volume - x.remaining))
  }

  ghost function UpdateIn(ls: seq<Level<Ticket>>, s: Side, x: Ticket, remaining: Quantity, d: int): seq<Level<Ticket>>
    requires LadderOk(ls, s) && x in Elems(ls)
  {
    Locate(ls, s, x);
    var i := LowerBound(ls, s, x.terms.price);
    UpdateAt(ls, i, IndexOf(ls[i].orders, x), x.(remaining := remaining), Wrap(ls[i].volume + d))
  }

  /** A book's tickets, seen from one side; the other side never holds a ticket of this one. */
  lemma TwoSides(b: Book, x: Ticket)
    requires BookOk(b) && x in Tickets(b)
    ensures LadderOk(Ladder(b, x.terms.side), x.terms.side) && x in Elems(Ladder(b, x.terms.side))
    ensures LadderOk(Ladder(b, x.terms.side.Opposite()), x.terms.side.Opposite())
    ensures x !in Elems(Ladder(b, x.terms.side.Opposite()))
    ensures Tickets(b) == Elems(Ladder(b, x.terms.side)) + Elems(Ladder(b, x.terms.side.Opposite()))
  {
    SidesOk(b);
  }

  /** Takes the resting ticket `x` out of its level, the index, and (unless hidden) the volume. */
  ghost function Remove(b: Book, x: Ticket): Book
    requires BookOk(b) && x in Tickets(b)
  {
    TwoSides(b, x);
    WithLadder(b, x.terms.side, RemoveFrom(Ladder(b, x.terms.side), x.terms.side, x)).(index := b.index - {x.id})
  }

  /** Gives the resting ticket `x` a new remaining quantity and adds `d` to its level's volume. */
  ghost function Update(b: Book, x: Ticket, remaining: Quantity, d: int): Book
    requires BookOk(b) && x in Tickets(b)
  {
    TwoSides(b, x);
    WithLadder(b, x.terms.side, UpdateIn(Ladder(b, x.terms.side), x.terms.side, x, remaining, d))
  }

  /** Puts the ticket `x` at the back of its level. */
  ghost function Insert(b: Book, x: Ticket): Book {
    var extra: Quantity := if x.terms.flags.hidden then 0 else x.remaining;
    WithLadder(b, x.terms.side, Append(Ladder(b, x.terms.side), x.terms.side, x.terms.price, x, extra))
      .(index := b.index[x.id := Home(x.terms.side, x.terms.price)])
  }

  // ---- What the edits do to one ladder ---------------------------------------------------

  lemma {:induction false} LevelErase(orders: seq<Ticket>, s: Side, p: Price, j: nat)
    requires Fifo(orders) && AllAt(orders, s, p) && j < |orders|
    ensures var out := orders[..j] + orders[j + 1..]; Fifo(out) && AllAt(out, s, p)
  {
    var out := orders[..j] + orders[j + 1..];
    if j == 0 {
      assert out == orders[1..];
    } else {
      LevelErase(orders[1..], s, p, j - 1);
      assert out[1..] == orders[1..][..j - 1] + orders[1..][j..];
      assert j == 1 && |orders| > 2 ==> orders[1..][0].id < orders[1..][1].id;
    }
  }

  lemma {:induction false} LevelReplace(orders: seq<Ticket>, s: Side, p: Price, j: nat, x: Ticket)
    requires Fifo(orders) && AllAt(orders, s, p) && j < |orders|
    requires x.id == orders[j].id && x.terms == orders[j].terms
    ensures Fifo(orders[j := x]) && AllAt(orders[j := x], s, p)
  {
    if j == 0 {
      assert orders[0 := x][1..] == orders[1..];
    } else {
      LevelReplace(orders[1..], s, p, j - 1, x);
      assert orders[j := x][1..] == orders[1..][j - 1 := x];
    }
  }

  lemma {:induction false} LevelPush(orders: seq<Ticket>, s: Side, p: Price, x: Ticket)
    requires Fifo(orders) && AllAt(orders, s, p) && x.terms.side == s && x.terms.price == p
    requires |orders| > 0 ==> orders[|orders| - 1].id < x.id
    ensures Fifo(orders + [x]) && AllAt(orders + [x], s, p)
  {
    if |orders| == 0 {
    } else {
      LevelPush(orders[1..], s, p, x);
      assert (orders + [x])[1..] == orders[1..] + [x];
    }
  }

  lemma {:induction false} EraseOk(ls: seq<Level<Ticket>>, s: Side, i: nat, j: nat, volume: Quantity)
    requires LadderOk(ls, s) && i < |ls| && j < |ls[i].orders|
    ensures var out := EraseAt(ls, i, j, volume);
            LadderOk(out, s) && (|out| > 0 ==> !Better(s, out[0].price, ls[0].price))
  {
    var out := EraseAt(ls, i, j, volume);
    if i == 0 {
      LevelErase(ls[0].orders, s, ls[0].price, j);
    } else {
      EraseOk(ls[1..], s, i - 1, j, volume);
    }
  }

  lemma {:induction false} UpdateOk(ls: seq<Level<Ticket>>, s: Side, i: nat, j: nat, x: Ticket, volume: Quantity)
    requires LadderOk(ls, s) && i < |ls| && j < |ls[i].orders|
    requires x.id == ls[i].orders[j].id && x.terms == ls[i].orders[j].terms
    ensures var out := UpdateAt(ls, i, j, x, volume);
            LadderOk(out, s) && out[0].price == ls[0].price
  {
    var out := UpdateAt(ls, i, j, x, volume);
    if i == 0 {
      LevelReplace(ls[0].orders, s, ls[0].price, j, x);
    } else {
      UpdateOk(ls[1..], s, i - 1, j, x, volume);
    }
  }

  lemma {:induction false} AppendOk(ls: seq<Level<Ticket>>, s: Side, x: Ticket, extra: Quantity)
    requires LadderOk(ls, s) && x.terms.side == s
    requires forall y: Ticket {:trigger y in Queue(ls)} :: y in Queue(ls) ==> y.id < x.id
    ensures var out := Append(ls, s, x.terms.price, x, extra);
            && LadderOk(out, s)
            && (out[0].price == x.terms.price || (|ls| > 0 && out[0].price == ls[0].price))
  {
    var p := x.terms.price;
    if |ls| == 0 || Better(s, p, ls[0].price) {
      LevelPush([], s, p, x);
      assert [] + [x] == [x];
    } else if ls[0].price == p {
      var orders := ls[0].orders;
      assert orders[|orders| - 1] in orders && orders[|orders| - 1] in Queue(ls);
      LevelPush(orders, s, p, x);
    } else {
      forall y: Ticket | y in Queue(ls[1..]) ensures y.id < x.id {
        assert y in Queue(ls);
      }
      AppendOk(ls[1..], s, x, extra);
    }
  }

  // ---- What the edits do to the book -----------------------------------------------------

  lemma TicketsRemove(ts: set<Ticket>, index: map<OrderID, Home>, nextId: OrderID, x: Ticket)
    requires TicketsOk(ts, index, nextId) && x in ts
    requires forall y :: y in ts && y.id == x.id ==> y == x
    ensures TicketsOk(ts - {x}, index - {x.id}, nextId)
  {
    assert Ids(ts - {x}) == Ids(ts) - {x.id};
  }

  lemma TicketsUpdate(ts: set<Ticket>, index: map<OrderID, Home>, nextId: OrderID, x: Ticket, r: Quantity)
    requires TicketsOk(ts, index, nextId) && x in ts && r <= x.remaining
    ensures TicketsOk(ts - {x} + {x.(remaining := r)}, index, nextId)
  {
    var x' := x.(remaining := r);
    var ts' := ts - {x} + {x'};
    assert x' in ts';
    assert forall y :: y in ts' && y != x' ==> y in ts && y != x;
    assert forall y :: y in ts && y != x ==> y in ts';
    assert Ids(ts') == Ids(ts);
  }

  lemma TicketsInsert(ts: set<Ticket>, index: map<OrderID, Home>, nextId: OrderID, x: Ticket)
    requires TicketsOk(ts, index, nextId) && x.remaining <= x.terms.quantity && Restable(x)
    requires 0 < x.id < nextId && forall y :: y in ts ==> y.id < x.id
    ensures TicketsOk(ts + {x}, index[x.id := Home(x.terms.side, x.terms.price)], nextId)
  {
    assert Ids(ts + {x}) == Ids(ts) + {x.id};
  }

  /** Both sides of an edited book are in order when the edited side and the ticket set are. */
  lemma SidesJoin(b: Book, s: Side, ls: seq<Level<Ticket>>, ts: set<Ticket>)
    requires LadderOk(ls, s) && LadderOk(Ladder(b, s.Opposite()), s.Opposite())
    requires ts == Elems(ls) + Elems(Ladder(b, s.Opposite()))
    ensures var c := WithLadder(b, s, ls);
            LadderOk(c.bids, Buy) && LadderOk(c.asks, Sell) && Tickets(c) == ts
  {
  }

  lemma WithoutOne(q: seq<Ticket>, s: Side, k: nat, y: Ticket)
    requires InOrder(q, s) && k < |q|
    ensures AsSet(q[..k] + q[k + 1..]) == AsSet(q) - {q[k]}
    ensures AsSet(q[k := y]) == AsSet(q) - {q[k]} + {y}
  {
    OrderedDistinct(q, s, k);
    assert q == q[..k] + [q[k]] + q[k + 1..];
    assert q[k := y] == q[..k] + [y] + q[k + 1..];
  }

  lemma EraseAll(ls: seq<Level<Ticket>>, s: Side, i: nat, j: nat, volume: Quantity)
    requires LadderOk(ls, s) && i < |ls| && j < |ls[i].orders|
    ensures LadderOk(EraseAt(ls, i, j, volume), s)
    ensures Elems(EraseAt(ls, i, j, volume)) == Elems(ls) - {ls[i].orders[j]}
  {
    EraseOk(ls, s, i, j, volume);
    EraseQueue(ls, i, j, volume);
    QueueAt(ls, i, j);
    QueueInOrder(ls, s);
    WithoutOne(Queue(ls), s, Offset(ls, i) + j, ls[i].orders[j]);
  }

  lemma RemoveFromOk(ls: seq<Level<Ticket>>, s: Side, x: Ticket)
    requires LadderOk(ls, s) && x in Elems(ls)
    ensures LadderOk(RemoveFrom(ls, s, x), s)
    ensures Elems(RemoveFrom(ls, s, x)) == Elems(ls) - {x}
  {
    Locate(ls, s, x);
    var i := LowerBound(ls, s, x.terms.price);
    var j := IndexOf(ls[i].orders, x);
    EraseAll(ls, s, i, j, if x.terms.flags.hidden then ls[i].volume else Wrap(ls[i].volume - x.remaining));
  }

  lemma UpdateAll(ls: seq<Level<Ticket>>, s: Side, i: nat, j: nat, x: Ticket, volume: Quantity)
    requires LadderOk(ls, s) && i < |ls| && j < |ls[i].orders|
    requires x.id == ls[i].orders[j].id && x.terms == ls[i].orders[j].terms
    ensures LadderOk(UpdateAt(ls, i, j, x, volume), s)
    ensures Elems(UpdateAt(ls, i, j, x, volume)) == Elems(ls) - {ls[i].orders[j]} + {x}
  {
    UpdateOk(ls, s, i, j, x, volume);
    UpdateQueue(ls, i, j, x, volume);
    QueueAt(ls, i, j);
    QueueInOrder(ls, s);
    WithoutOne(Queue(ls), s, Offset(ls, i) + j, x);
  }

  lemma AppendAll(ls: seq<Level<Ticket>>, s: Side, x: Ticket, extra: Quantity)
    requires LadderOk(ls, s) && x.terms.side == s
    requires forall y: Ticket {:trigger y in Elems(ls)} :: y in Elems(ls) ==> y.id < x.id
    ensures LadderOk(Append(ls, s, x.terms.price, x, extra), s)
    ensures Elems(Append(ls, s, x.terms.price, x, extra)) == Elems(ls) + {x}
  {
    forall y: Ticket | y in Queue(ls) ensures y.id < x.id {
      assert y in Elems(ls);
    }
    AppendOk(ls, s, x, extra);
    AppendQueue(ls, s, x.terms.price, x, extra);
    var q, k := Queue(ls), BackOf(ls, s, x.terms.price);
    assert q == q[..k] + q[k..];
  }

  lemma UpdateInOk(ls: seq<Level<Ticket>>, s: Side, x: Ticket, remaining: Quantity, d: int)
    requires LadderOk(ls, s) && x in Elems(ls)
    ensures LadderOk(UpdateIn(ls, s, x, remaining, d), s)
    ensures Elems(UpdateIn(ls, s, x, remaining, d)) == Elems(ls) - {x} + {x.(remaining := remaining)}
  {
    Locate(ls, s, x);
    var i := LowerBound(ls, s, x.terms.price);
    var j := IndexOf(ls[i].orders, x);
    UpdateAll(ls, s, i, j, x.(remaining := remaining), Wrap(ls[i].volume + d));
  }

  lemma RemoveKeeps(b: Book, x: Ticket)
    requires BookOk(b) && x in Tickets(b)
    ensures BookOk(Remove(b, x))
    ensures Remove(b, x).index == b.index - {x.id} && Remove(b, x).nextId == b.nextId
    ensures Tickets(Remove(b, x)) == Tickets(b) - {x}
    ensures Ladder(Remove(b, x), x.terms.side.Opposite()) == Ladder(b, x.terms.side.Opposite())
    ensures Elems(Ladder(Remove(b, x), x.terms.side)) == Elems(Ladder(b, x.terms.side)) - {x}
  {
    TwoSides(b, x);
    var ls := Ladder(b, x.terms.side);
    RemoveFromOk(ls, x.terms.side, x);
    forall y | y in Tickets(b) && y.id == x.id ensures y == x {
      UniqueIds(b, x, y);
    }
    SidesJoin(b, x.terms.side, RemoveFrom(ls, x.terms.side, x), Tickets(b) - {x});
    TicketsRemove(Tickets(b), b.index, b.nextId, x);
  }

  lemma UpdateKeeps(b: Book, x: Ticket, remaining: Quantity, d: int)
    requires BookOk(b) && x in Tickets(b) && remaining <= x.remaining
    ensures BookOk(Update(b, x, remaining, d))
    ensures Tickets(Update(b, x, remaining, d)) == Tickets(b) - {x} + {x.(remaining := remaining)}
    ensures x.(remaining := remaining) in Tickets(Update(b, x, remaining, d))
    ensures Update(b, x, remaining, d).index == b.index && Update(b, x, remaining, d).nextId == b.nextId
    ensures Ladder(Update(b, x, remaining, d), x.terms.side.Opposite()) == Ladder(b, x.terms.side.Opposite())
    ensures Elems(Ladder(Update(b, x, remaining, d), x.terms.side))
         == Elems(Ladder(b, x.terms.side)) - {x} + {x.(remaining := remaining)}
  {
    TwoSides(b, x);
    var ls := Ladder(b, x.terms.side);
    UpdateInOk(ls, x.terms.side, x, remaining, d);
    SidesJoin(b, x.terms.side, UpdateIn(ls, x.terms.side, x, remaining, d),
              Tickets(b) - {x} + {x.(remaining := remaining)});
    TicketsUpdate(Tickets(b), b.index, b.nextId, x, remaining);
  }

  lemma InsertLadder(b: Book, x: Ticket)
    requires BookOk(b) && forall y {:trigger y in Tickets(b)} :: y in Tickets(b) ==> y.id < x.id
    ensures LadderOk(Ladder(Insert(b, x), x.terms.side), x.terms.side)
    ensures Elems(Ladder(Insert(b, x), x.terms.side)) == Elems(Ladder(b, x.terms.side)) + {x}
  {
    var ls := Ladder(b, x.terms.side);
    assert LadderOk(ls, x.terms.side);
    forall y | y in Elems(ls) ensures y.id < x.id {
      assert y in Tickets(b);
    }
    AppendAll(ls, x.terms.side, x, if x.terms.flags.hidden then 0 else x.remaining);
  }

  lemma InsertKeeps(b: Book, x: Ticket)
    requires BookOk(b) && x.remaining <= x.terms.quantity && Restable(x)
    requires 0 < x.id < b.nextId && forall y {:trigger y in Tickets(b)} :: y in Tickets(b) ==> y.id < x.id
    ensures BookOk(Insert(b, x))
    ensures Insert(b, x).index == b.index[x.id := Home(x.terms.side, x.terms.price)] && Insert(b, x).nextId == b.nextId
    ensures Tickets(Insert(b, x)) == Tickets(b) + {x}
    ensures Ladder(Insert(b, x), x.terms.side.Opposite()) == Ladder(b, x.terms.side.Opposite())
    ensures Elems(Ladder(Insert(b, x), x.terms.side)) == Elems(Ladder(b, x.terms.side)) + {x}
  {
    InsertLadder(b, x);
    SidesJoin(b, x.terms.side, Ladder(Insert(b, x), x.terms.side), Tickets(b) + {x});
    TicketsInsert(Tickets(b), b.index, b.nextId, x);
  }
}
