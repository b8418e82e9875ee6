/**
 How the book of order objects mirrors the book of tickets: the same levels, and in every slot the
 object that the index holds for the id of the ticket in that slot. No order is dereferenced here.
 */
module Mirrors {
  import opened Types
  import opened Ladders
  import opened Books
  import opened Orders

  /** What the index stores: the order's node in its list, and the key of its level. */
  datatype Entry = Entry(node: Order, level: Price)

  type Index = map<OrderID, Entry>
  type Shelf = seq<Level<Order>>

  ghost predicate SameOrders(orders: seq<Order>, xs: seq<Ticket>, index: Index) {
    && |orders| == |xs|
    && (|xs| > 0 ==>
          && xs[0].id in index && index[xs[0].id].node == orders[0]
          && SameOrders(orders[1..], xs[1..], index))
  }

  ghost predicate Mirrored(ls: Shelf, ms: seq<Level<Ticket>>, index: Index) {
    && |ls| == |ms|
    && (|ms| > 0 ==>
          && ls[0].price == ms[0].price && ls[0].volume == ms[0].volume
          && SameOrders(ls[0].orders, ms[0].orders, index)
          && Mirrored(ls[1..], ms[1..], index))
  }

  ghost predicate IndexMirrors(index: Index, homes: map<OrderID, Home>) {
    && index.Keys == homes.Keys
    && forall id {:trigger index[id]} :: id in index ==> index[id].node.id == id && index[id].level == homes[id].price
  }

  /** The object book `bids`, `asks`, `index` is the value book `b`, apart from what each order has left. */
  ghost predicate Linked(bids: Shelf, asks: Shelf, index: Index, b: Book) {
    && BookOk(b)
    && IndexMirrors(index, b.index)
    && Mirrored(bids, b.bids, index)
    && Mirrored(asks, b.asks, index)
  }

  // ---- Reading ---------------------------------------------------------------------------

  lemma {:induction false} MirrorAt(ls: Shelf, ms: seq<Level<Ticket>>, index: Index, i: nat)
    requires Mirrored(ls, ms, index) && i < |ms|
    ensures |ls| == |ms| && ls[i].price == ms[i].price && ls[i].volume == ms[i].volume
    ensures SameOrders(ls[i].orders, ms[i].orders, index)
  {
    if i == 0 {
    } else {
      MirrorAt(ls[1..], ms[1..], index, i - 1);
    }
  }

  lemma {:induction false} SameAt(orders: seq<Order>, xs: seq<Ticket>, index: Index, j: nat)
    requires SameOrders(orders, xs, index) && j < |xs|
    ensures |orders| == |xs| && xs[j].id in index && orders[j] == index[xs[j].id].node
  {
    if j == 0 {
    } else {
      SameAt(orders[1..], xs[1..], index, j - 1);
    }
  }

  lemma {:induction false} SameBound(ls: Shelf, ms: seq<Level<Ticket>>, index: Index, s: Side, p: Price)
    requires Mirrored(ls, ms, index)
    ensures LowerBound(ls, s, p) == LowerBound(ms, s, p)
  {
    if |ms| == 0 {
    } else {
      SameBound(ls[1..], ms[1..], index, s, p);
    }
  }

  lemma {:induction false} SameSlot(orders: seq<Order>, xs: seq<Ticket>, index: Index, homes: map<OrderID, Home>,
                                    j: nat)
    requires SameOrders(orders, xs, index) && IndexMirrors(index, homes) && Fifo(xs) && j < |xs|
    ensures |orders| == |xs| && orders[j] in orders && IndexOf(orders, orders[j]) == j
    ensures xs[j].id in index && orders[j] == index[xs[j].id].node
    decreases j
  {
    SameAt(orders, xs, index, j);
    if j == 0 {
    } else {
      FifoHead(xs, j);
      assert orders[0] != orders[j] by {
        assert orders[0] == index[xs[0].id].node;
      }
      SameSlot(orders[1..], xs[1..], index, homes, j - 1);
      assert orders[j] == orders[1..][j - 1];
    }
  }

  /** The level key and the node kept in the index lead to the slot of the ticket. */
  lemma FindSlot(ls: Shelf, ms: seq<Level<Ticket>>, index: Index, homes: map<OrderID, Home>, s: Side, x: Ticket)
    requires Mirrored(ls, ms, index) && IndexMirrors(index, homes) && LadderOk(ms, s) && x in Elems(ms)
    ensures var i := LowerBound(ms, s, x.terms.price);
            && i < |ms| && |ls| == |ms| && x in ms[i].orders
            && LowerBound(ls, s, x.terms.price) == i && ls[i].price == ms[i].price == x.terms.price
            && ls[i].volume == ms[i].volume && |ls[i].orders| == |ms[i].orders|
            && x.id in index && index[x.id].node in ls[i].orders
            && IndexOf(ls[i].orders, index[x.id].node) == IndexOf(ms[i].orders, x)
  {
    Locate(ms, s, x);
    var i := LowerBound(ms, s, x.terms.price);
    SameBound(ls, ms, index, s, x.terms.price);
    MirrorAt(ls, ms, index, i);
    LevelAt(ms, s, i);
    SameSlot(ls[i].orders, ms[i].orders, index, homes, IndexOf(ms[i].orders, x));
  }

  // ---- Editing one ladder ----------------------------------------------------------------

  /** The index may change for ids that a ladder does not hold. */
  lemma {:induction false} SameElsewhere(orders: seq<Order>, xs: seq<Ticket>, index: Index, other: Index)
    requires SameOrders(orders, xs, index)
    requires forall x: Ticket {:trigger x in xs} ::
              x in xs ==> x.id in other && (x.id in index ==> other[x.id] == index[x.id])
    ensures SameOrders(orders, xs, other)
  {
    if |xs| == 0 {
    } else {
      assert xs[0] in xs;
      forall x: Ticket | x in xs[1..] ensures x.id in other && (x.id in index ==> other[x.id] == index[x.id]) {
        assert x in xs;
      }
      SameElsewhere(orders[1..], xs[1..], index, other);
    }
  }

  lemma {:induction false} MirrorElsewhere(ls: Shelf, ms: seq<Level<Ticket>>, index: Index, other: Index)
    requires Mirrored(ls, ms, index)
    requires forall x: Ticket {:trigger x in Queue(ms)} ::
               x in Queue(ms) ==> x.id in other && (x.id in index ==> other[x.id] == index[x.id])
    ensures Mirrored(ls, ms, other)
  {
    if |ms| == 0 {
    } else {
      forall x: Ticket | x in ms[0].orders ensures x.id in other && (x.id in index ==> other[x.id] == index[x.id]) {
        assert x in Queue(ms);
      }
      SameElsewhere(ls[0].orders, ms[0].orders, index, other);
      forall x: Ticket | x in Queue(ms[1..]) ensures x.id in other && (x.id in index ==> other[x.id] == index[x.id]) {
        assert x in Queue(ms);
      }
      MirrorElsewhere(ls[1..], ms[1..], index, other);
    }
  }

  lemma {:induction false} SameErase(orders: seq<Order>, xs: seq<Ticket>, index: Index, j: nat)
    requires SameOrders(orders, xs, index) && j < |xs|
    ensures |orders| == |xs| && SameOrders(orders[..j] + orders[j + 1..], xs[..j] + xs[j + 1..], index)
  {
    if j == 0 {
      assert orders[..0] + orders[1..] == orders[1..] && xs[..0] + xs[1..] == xs[1..];
    } else {
      SameErase(orders[1..], xs[1..], index, j - 1);
      assert (orders[..j] + orders[j + 1..])[1..] == orders[1..][..j - 1] + orders[1..][j..];
      assert (xs[..j] + xs[j + 1..])[1..] == xs[1..][..j - 1] + xs[1..][j..];
    }
  }

  lemma {:induction false} SameReplace(orders: seq<Order>, xs: seq<Ticket>, index: Index, j: nat, x: Ticket)
    requires SameOrders(orders, xs, index) && j < |xs| && x.id == xs[j].id
    ensures SameOrders(orders, xs[j := x], index)
  {
    if j == 0 {
      assert xs[0 := x][1..] == xs[1..];
    } else {
      SameReplace(orders[1..], xs[1..], index, j - 1, x);
      assert xs[j := x][1..] == xs[1..][j - 1 := x];
    }
  }

  lemma {:induction false} SamePush(orders: seq<Order>, xs: seq<Ticket>, index: Index, n: Order, x: Ticket)
    requires SameOrders(orders, xs, index) && x.id in index && index[x.id].node == n
    ensures SameOrders(orders + [n], xs + [x], index)
  {
    if |xs| == 0 {
    } else {
      SamePush(orders[1..], xs[1..], index, n, x);
      assert (orders + [n])[1..] == orders[1..] + [n];
      assert (xs + [x])[1..] == xs[1..] + [x];
    }
  }

  /** Erasing by position, in slices: the node goes, and the level with it when it was the last. */
  function Erased<T>(ls: seq<Level<T>>, i: nat, j: nat, volume: Quantity): seq<Level<T>>
    requires i < |ls| && j < |ls[i].orders|
  {
    var rest := ls[i].orders[..j] + ls[i].orders[j + 1..];
    if |rest| == 0 then ls[..i] + ls[i + 1..] else ls[i := Level(ls[i].price, volume, rest)]
  }

  lemma ErasedBehind<T>(l: Level<T>, tail: seq<Level<T>>, i: nat, j: nat, volume: Quantity)
    requires i < |tail| && j < |tail[i].orders|
    ensures Erased([l] + tail, i + 1, j, volume) == [l] + Erased(tail, i, j, volume)
  {
    var ls := [l] + tail;
    assert ls[i + 1] == tail[i] && ls[..i + 1] == [l] + tail[..i] && ls[i + 2..] == tail[i + 1..];
    assert ls[..i + 1] + ls[i + 2..] == [l] + (tail[..i] + tail[i + 1..]);
  }

  lemma {:induction false} ErasedIsEraseAt<T>(ls: seq<Level<T>>, i: nat, j: nat, volume: Quantity)
    requires i < |ls| && j < |ls[i].orders|
    ensures Erased(ls, i, j, volume) == EraseAt(ls, i, j, volume)
    decreases i
  {
    if i == 0 {
    } else {
      ErasedIsEraseAt(ls[1..], i - 1, j, volume);
      ErasedBehind(ls[0], ls[1..], i - 1, j, volume);
      assert ls == [ls[0]] + ls[1..];
    }
  }

  lemma {:induction false} MirrorErase(ls: Shelf, ms: seq<Level<Ticket>>, index: Index, i: nat, j: nat,
                                       volume: Quantity)
    requires Mirrored(ls, ms, index) && i < |ms| && j < |ms[i].orders|
    ensures |ls| == |ms| && |ls[i].orders| == |ms[i].orders|
    ensures Mirrored(EraseAt(ls, i, j, volume), EraseAt(ms, i, j, volume), index)
    decreases i
  {
    MirrorAt(ls, ms, index, i);
    if i == 0 {
      SameErase(ls[0].orders, ms[0].orders, index, j);
    } else {
      MirrorErase(ls[1..], ms[1..], index, i - 1, j, volume);
    }
  }

  /** Updating a ticket under its id leaves the objects in place; only the level's volume changes. */
  lemma {:induction false} MirrorUpdate(ls: Shelf, ms: seq<Level<Ticket>>, index: Index, i: nat, j: nat, x: Ticket,
                                        volume: Quantity)
    requires Mirrored(ls, ms, index) && i < |ms| && j < |ms[i].orders| && x.id == ms[i].orders[j].id
    ensures |ls| == |ms| && Mirrored(ls[i := ls[i].(volume := volume)], UpdateAt(ms, i, j, x, volume), index)
    decreases i
  {
    if i == 0 {
      SameReplace(ls[0].orders, ms[0].orders, index, j, x);
    } else {
      MirrorUpdate(ls[1..], ms[1..], index, i - 1, j, x, volume);
      assert ls[i := ls[i].(volume := volume)][1..] == ls[1..][i - 1 := ls[i].(volume := volume)];
    }
  }

  lemma {:induction false} MirrorAppend(ls: Shelf, ms: seq<Level<Ticket>>, index: Index, s: Side, n: Order,
                                        x: Ticket, extra: Quantity)
    requires Mirrored(ls, ms, index) && x.id in index && index[x.id].node == n
    ensures Mirrored(Append(ls, s, x.terms.price, n, extra), Append(ms, s, x.terms.price, x, extra), index)
  {
    var p := x.terms.price;
    if |ms| == 0 || Better(s, p, ms[0].price) {
      SamePush([], [], index, n, x);
      assert [] + [n] == [n] && [] + [x] == [x];
    } else if ms[0].price == p {
      SamePush(ls[0].orders, ms[0].orders, index, n, x);
    } else {
      MirrorAppend(ls[1..], ms[1..], index, s, n, x, extra);
    }
  }

  /** Finding or creating the level at `p`, and then its volume and its list. */
  function Emplaced<T>(ls: seq<Level<T>>, s: Side, p: Price): (out: seq<Level<T>>)
    ensures var k := LowerBound(ls, s, p); k < |out| && out[k].price == p
  {
    var k := LowerBound(ls, s, p);
    if k < |ls| && ls[k].price == p then ls else ls[..k] + [Level(p, 0, [])] + ls[k..]
  }

  function Appended<T>(ls: seq<Level<T>>, s: Side, p: Price, x: T, extra: Quantity): seq<Level<T>> {
    var k, out := LowerBound(ls, s, p), Emplaced(ls, s, p);
    out[k := Level(p, Wrap(out[k].volume + extra), out[k].orders + [x])]
  }

  lemma Regroup<T>(a: seq<T>, b: seq<T>, c: seq<T>, d: seq<T>)
    ensures a + b + c + d == a + (b + c + d)
  {
  }

  lemma EmplacedBehind<T>(l: Level<T>, tail: seq<Level<T>>, s: Side, p: Price)
    requires Better(s, l.price, p)
    ensures LowerBound([l] + tail, s, p) == LowerBound(tail, s, p) + 1
    ensures Emplaced([l] + tail, s, p) == [l] + Emplaced(tail, s, p)
  {
    var ls, k := [l] + tail, LowerBound(tail, s, p);
    assert ls[1..] == tail;
    assert ls[..k + 1] == [l] + tail[..k] && ls[k + 1..] == tail[k..];
    if k < |tail| && tail[k].price == p {
      assert ls[k + 1] == tail[k];
    } else {
      Regroup([l], tail[..k], [Level(p, 0, [])], tail[k..]);
    }
  }

  lemma UpdateBehind<T>(l: T, tail: seq<T>, k: nat, x: T)
    requires k < |tail|
    ensures ([l] + tail)[k + 1] == tail[k]
    ensures ([l] + tail)[k + 1 := x] == [l] + tail[k := x]
  {
  }

  lemma AppendedBehind<T>(l: Level<T>, tail: seq<Level<T>>, s: Side, p: Price, x: T, extra: Quantity)
    requires Better(s, l.price, p)
    ensures Appended([l] + tail, s, p, x, extra) == [l] + Appended(tail, s, p, x, extra)
  {
    EmplacedBehind(l, tail, s, p);
    var out, k := Emplaced(tail, s, p), LowerBound(tail, s, p);
    UpdateBehind(l, out, k, Level(p, Wrap(out[k].volume + extra), out[k].orders + [x]));
  }

  lemma AppendedHere<T>(ls: seq<Level<T>>, s: Side, p: Price, x: T, extra: Quantity)
    requires |ls| == 0 || !Better(s, ls[0].price, p)
    ensures Appended(ls, s, p, x, extra) == Append(ls, s, p, x, extra)
  {
    assert LowerBound(ls, s, p) == 0;
    if |ls| > 0 && ls[0].price == p {
      assert ls == [ls[0]] + ls[1..];
    } else {
      assert ls[..0] + [Level(p, 0, [])] + ls[0..] == [Level(p, 0, [])] + ls;
      assert Level(p, 0, []).orders + [x] == [x];
    }
  }

  lemma {:induction false} AppendedIsAppend<T>(ls: seq<Level<T>>, s: Side, p: Price, x: T, extra: Quantity)
    ensures Appended(ls, s, p, x, extra) == Append(ls, s, p, x, extra)
  {
    if |ls| == 0 || !Better(s, ls[0].price, p) {
      AppendedHere(ls, s, p, x, extra);
    } else {
      AppendedIsAppend(ls[1..], s, p, x, extra);
      AppendedBehind(ls[0], ls[1..], s, p, x, extra);
      assert ls == [ls[0]] + ls[1..];
    }
  }

  // ---- Editing the book ------------------------------------------------------------------

  function Pick(s: Side, bids: Shelf, asks: Shelf): Shelf {
    if s == Buy then bids else asks
  }

  /** A ladder of a book in agreement still mirrors its objects under an index that has its ids. */
  lemma Reindex(ls: Shelf, c: Book, s: Side, index: Index, other: Index)
    requires BookOk(c) && c.index.Keys <= other.Keys && Mirrored(ls, Ladder(c, s), index)
    requires forall id {:trigger other[id]} :: id in other && id in index ==> other[id] == index[id]
    ensures Mirrored(ls, Ladder(c, s), other)
  {
    forall x: Ticket | x in Queue(Ladder(c, s))
      ensures x.id in other && (x.id in index ==> other[x.id] == index[x.id])
    {
      assert x in Tickets(c);
    }
    MirrorElsewhere(ls, Ladder(c, s), index, other);
  }

  /** The level and slot of `x`, as the index gives them. */
  lemma SlotOf(bids: Shelf, asks: Shelf, index: Index, b: Book, x: Ticket)
    requires Linked(bids, asks, index, b) && x in Tickets(b)
    ensures var s := x.terms.side;
            var ls, ms := Pick(s, bids, asks), Ladder(b, s);
            && LadderOk(ms, s) && x in Elems(ms) && x.id in index && index[x.id].level == x.terms.price
            && var i := LowerBound(ls, s, x.terms.price);
            && i < |ls| == |ms| && ls[i].price == x.terms.price && index[x.id].node in ls[i].orders
            && i == LowerBound(ms, s, x.terms.price) && x in ms[i].orders
            && ls[i].volume == ms[i].volume && |ls[i].orders| == |ms[i].orders|
            && IndexOf(ls[i].orders, index[x.id].node) == IndexOf(ms[i].orders, x)
  {
    TwoSides(b, x);
    var s := x.terms.side;
    FindSlot(Pick(s, bids, asks), Ladder(b, s), index, b.index, s, x);
    assert b.index[x.id] == Home(s, x.terms.price);
  }

  lemma RemoveMirrored(bids: Shelf, asks: Shelf, index: Index, b: Book, x: Ticket, out: Shelf)
    requires Linked(bids, asks, index, b) && x in Tickets(b)
    requires var s := x.terms.side;
             var ls := Pick(s, bids, asks);
             var i := LowerBound(ls, s, x.terms.price);
             && i < |ls| && x.id in index && index[x.id].node in ls[i].orders
             && out == Erased(ls, i, IndexOf(ls[i].orders, index[x.id].node),
                              if x.terms.flags.hidden then ls[i].volume else Wrap(ls[i].volume - x.remaining))
    ensures Mirrored(out, Ladder(Remove(b, x), x.terms.side), index)
  {
    hide BookOk, Erased, Mirrored;
    SlotOf(bids, asks, index, b, x);
    var s := x.terms.side;
    var ls, ms := Pick(s, bids, asks), Ladder(b, s);
    var i := LowerBound(ls, s, x.terms.price);
    var j := IndexOf(ls[i].orders, index[x.id].node);
    var volume := if x.terms.flags.hidden then ls[i].volume else Wrap(ls[i].volume - x.remaining);
    ErasedIsEraseAt(ls, i, j, volume);
    MirrorErase(ls, ms, index, i, j, volume);
  }

  lemma LinkRemove(bids: Shelf, asks: Shelf, index: Index, b: Book, x: Ticket, out: Shelf)
    requires Linked(bids, asks, index, b) && x in Tickets(b)
    requires var s := x.terms.side;
             var ls := Pick(s, bids, asks);
             var i := LowerBound(ls, s, x.terms.price);
             && i < |ls| && x.id in index && index[x.id].node in ls[i].orders
             && out == Erased(ls, i, IndexOf(ls[i].orders, index[x.id].node),
                              if x.terms.flags.hidden then ls[i].volume else Wrap(ls[i].volume - x.remaining))
    ensures Linked(Pick(x.terms.side, out, bids), Pick(x.terms.side, asks, out), index - {x.id}, Remove(b, x))
  {
    RemoveMirrored(bids, asks, index, b, x, out);
    RemoveKeeps(b, x);
    var c, s := Remove(b, x), x.terms.side;
    Reindex(out, c, s, index, index - {x.id});
    Reindex(Pick(s.Opposite(), bids, asks), c, s.Opposite(), index, index - {x.id});
  }

  lemma UpdateMirrored(bids: Shelf, asks: Shelf, index: Index, b: Book, x: Ticket, r: Quantity, d: int, out: Shelf)
    requires Linked(bids, asks, index, b) && x in Tickets(b) && r <= x.remaining
    requires var s := x.terms.side;
             var ls := Pick(s, bids, asks);
             var i := LowerBound(ls, s, x.terms.price);
             i < |ls| && out == ls[i := ls[i].(volume := Wrap(ls[i].volume + d))]
    ensures Mirrored(out, Ladder(Update(b, x, r, d), x.terms.side), index)
  {
    hide Mirrored, LadderOk;
    SlotOf(bids, asks, index, b, x);
    var s := x.terms.side;
    var ls, ms := Pick(s, bids, asks), Ladder(b, s);
    var i := LowerBound(ms, s, x.terms.price);
    MirrorUpdate(ls, ms, index, i, IndexOf(ms[i].orders, x), x.(remaining := r), Wrap(ls[i].volume + d));
  }

  lemma LinkUpdate(bids: Shelf, asks: Shelf, index: Index, b: Book, x: Ticket, r: Quantity, d: int, out: Shelf)
    requires Linked(bids, asks, index, b) && x in Tickets(b) && r <= x.remaining
    requires var s := x.terms.side;
             var ls := Pick(s, bids, asks);
             var i := LowerBound(ls, s, x.terms.price);
             i < |ls| && out == ls[i := ls[i].(volume := Wrap(ls[i].volume + d))]
    ensures Linked(Pick(x.terms.side, out, bids), Pick(x.terms.side, asks, out), index, Update(b, x, r, d))
  {
    UpdateMirrored(bids, asks, index, b, x, r, d, out);
    UpdateKeeps(b, x, r, d);
  }

  lemma InsertMirrored(bids: Shelf, asks: Shelf, index: Index, b: Book, x: Ticket, n: Order, out: Shelf)
    requires Linked(bids, asks, index, b) && x.id !in index
    requires var s := x.terms.side;
             out == Appended(Pick(s, bids, asks), s, x.terms.price, n, if x.terms.flags.hidden then 0 else x.remaining)
    ensures Mirrored(out, Ladder(Insert(b, x), x.terms.side), index[x.id := Entry(n, x.terms.price)])
  {
    var s, other := x.terms.side, index[x.id := Entry(n, x.terms.price)];
    var ls, extra: Quantity := Pick(s, bids, asks), if x.terms.flags.hidden then 0 else x.remaining;
    AppendedIsAppend(ls, s, x.terms.price, n, extra);
    Reindex(ls, b, s, index, other);
    MirrorAppend(ls, Ladder(b, s), other, s, n, x, extra);
  }

  lemma IndexInsert(index: Index, homes: map<OrderID, Home>, x: Ticket, n: Order)
    requires IndexMirrors(index, homes) && n.id == x.id
    ensures IndexMirrors(index[x.id := Entry(n, x.terms.price)], homes[x.id := Home(x.terms.side, x.terms.price)])
  {
  }

  lemma LinkInsert(bids: Shelf, asks: Shelf, index: Index, b: Book, x: Ticket, n: Order, out: Shelf)
    requires Linked(bids, asks, index, b) && n.id == x.id && x.id !in index && BookOk(Insert(b, x))
    requires var s := x.terms.side;
             out == Appended(Pick(s, bids, asks), s, x.terms.price, n, if x.terms.flags.hidden then 0 else x.remaining)
    ensures Linked(Pick(x.terms.side, out, bids), Pick(x.terms.side, asks, out),
                   index[x.id := Entry(n, x.terms.price)], Insert(b, x))
  {
    var s, other := x.terms.side, index[x.id := Entry(n, x.terms.price)];
    InsertMirrored(bids, asks, index, b, x, n, out);
    Reindex(Pick(s.Opposite(), bids, asks), b, s.Opposite(), index, other);
    IndexInsert(index, b.index, x, n);
  }
}
