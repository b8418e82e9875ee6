/**
 How commands combine: a modify is a cancel and an add, an add followed by a cancel is no change,
 a post-only order never takes, and what a late rejection leaves behind.
 */
module Equivalences {
  import opened Types
  import opened Ladders
  import opened Books
  import opened Matching
  import opened Commands
  import opened FillOrKill
  import opened FlatBook

  // ---- Modify ----------------------------------------------------------------------------

  /** Terms that may rest are refused only as post-only, and then the book is untouched. */
  lemma RestableIsAccepted(b: Book, r: Request)
    requires BookOk(b) && r.matching == Standard && Rests(r)
    ensures var a := AddOrder(b, r);
            && (a.code == Success || a == Outcome(b, PostOnlyViolation, [], []))
            && (a.code == Success ==> a.book.nextId == b.nextId + 1)
  {
    AddKeeps(b, r);
    if Accepts(b, r) {
      TakerTerms(b, r);
    }
  }

  /**
   An owner's change of price or increase of quantity is a cancel followed by an add under a fresh
   id. The cancel cannot fail, the add can fail only as post-only, and then the order is just gone.
   */
  lemma ModifyIsCancelThenAdd(b: Book, client: ClientID, id: OrderID, price: Price, quantity: Quantity)
    requires BookOk(b) && id in b.index && Lookup(b, id).terms.client == client
    requires price != Lookup(b, id).terms.price || quantity > Lookup(b, id).remaining
    ensures var m, c := ModifyOrder(b, client, id, price, quantity), CancelOrder(b, client, id);
            && c.code == Success && BookOk(c.book)
            && var a := AddOrder(c.book, Lookup(b, id).terms.(price := price, quantity := quantity));
            && (a.code == Success || a.code == PostOnlyViolation)
            && m.book == a.book && m.fills == a.fills && m.log == c.log + a.log
            && (m.code == Success <==> a.code == Success)
            && (m.code != Success ==> m.code == InvalidModify && m.book == c.book && m.fills == [])
            && (m.code == Success ==> m.book.nextId == b.nextId + 1)
            && id !in c.book.index
  {
    var x := Lookup(b, id);
    RemoveKeeps(b, x);
    assert Restable(x);
    RestableIsAccepted(Remove(b, x), x.terms.(price := price, quantity := quantity));
  }

  // ---- Add, then cancel ------------------------------------------------------------------

  lemma {:induction false} LastIndex(orders: seq<Ticket>, x: Ticket)
    requires x !in orders
    ensures IndexOf(orders + [x], x) == |orders|
  {
    if |orders| == 0 {
    } else {
      assert (orders + [x])[1..] == orders[1..] + [x];
      LastIndex(orders[1..], x);
    }
  }

  lemma EraseLast(l: Level<Ticket>, tail: seq<Level<Ticket>>, x: Ticket, extra: Quantity, volume: Quantity)
    requires |l.orders| > 0 && volume == l.volume
    ensures EraseAt([Level(l.price, Wrap(l.volume + extra), l.orders + [x])] + tail, 0, |l.orders|, volume)
         == [l] + tail
  {
    var orders, n := l.orders + [x], |l.orders|;
    assert orders[..n] + orders[n + 1..] == l.orders;
    var out := [Level(l.price, Wrap(l.volume + extra), orders)] + tail;
    assert out[1..] == tail;
  }

  function RemovedVolume(x: Ticket, volume: Quantity): Quantity {
    if x.terms.flags.hidden then volume else Wrap(volume - x.remaining)
  }

  lemma VolumeBack(x: Ticket, volume: Quantity)
    ensures RemovedVolume(x, Wrap(volume + if x.terms.flags.hidden then 0 else x.remaining)) == volume
  {
    WrapAbsorbs(volume + x.remaining, 0 - x.remaining);
  }

  /** Undoes an append: takes `x` out of the level at its price. */
  function TakeBack(ls: seq<Level<Ticket>>, s: Side, x: Ticket): seq<Level<Ticket>>
    requires HasLevel(ls, s, x.terms.price) && x in ls[LowerBound(ls, s, x.terms.price)].orders
  {
    var i := LowerBound(ls, s, x.terms.price);
    EraseAt(ls, i, IndexOf(ls[i].orders, x), RemovedVolume(x, ls[i].volume))
  }

  /** Taking `x` back out of `out` gives `ls`. */
  ghost predicate Restores(out: seq<Level<Ticket>>, s: Side, x: Ticket, ls: seq<Level<Ticket>>) {
    && HasLevel(out, s, x.terms.price)
    && x in out[LowerBound(out, s, x.terms.price)].orders
    && TakeBack(out, s, x) == ls
  }

  lemma RestoresDeeper(l: Level<Ticket>, out: seq<Level<Ticket>>, s: Side, x: Ticket, ls: seq<Level<Ticket>>)
    requires Better(s, l.price, x.terms.price) && Restores(out, s, x, ls)
    ensures Restores([l] + out, s, x, [l] + ls)
  {
    assert ([l] + out)[1..] == out;
  }

  lemma RestoresNew(ls: seq<Level<Ticket>>, s: Side, x: Ticket, extra: Quantity)
    ensures Restores([Level(x.terms.price, extra, [x])] + ls, s, x, ls)
  {
    var out := [Level(x.terms.price, extra, [x])] + ls;
    assert LowerBound(out, s, x.terms.price) == 0 && out[1..] == ls;
  }

  lemma RestoresLast(l: Level<Ticket>, tail: seq<Level<Ticket>>, s: Side, x: Ticket)
    requires |l.orders| > 0 && x !in l.orders && l.price == x.terms.price
    ensures var extra: Quantity := if x.terms.flags.hidden then 0 else x.remaining;
            Restores([Level(l.price, Wrap(l.volume + extra), l.orders + [x])] + tail, s, x, [l] + tail)
  {
    LastIndex(l.orders, x);
    VolumeBack(x, l.volume);
    EraseLast(l, tail, x, if x.terms.flags.hidden then 0 else x.remaining, l.volume);
  }

  /** Taking back the order just appended restores the ladder, level and volume included. */
  lemma {:induction false} AppendThenTakeBack(ls: seq<Level<Ticket>>, s: Side, x: Ticket)
    requires LadderOk(ls, s) && x !in Queue(ls)
    ensures Restores(Append(ls, s, x.terms.price, x, if x.terms.flags.hidden then 0 else x.remaining), s, x, ls)
    decreases |ls|
  {
    hide Restores, EraseAt;
    var p := x.terms.price;
    var extra: Quantity := if x.terms.flags.hidden then 0 else x.remaining;
    if |ls| == 0 || Better(s, p, ls[0].price) {
      RestoresNew(ls, s, x, extra);
    } else {
      var l, tail := ls[0], ls[1..];
      assert [l] + tail == ls;
      if l.price == p {
        RestoresLast(l, tail, s, x);
      } else {
        AppendThenTakeBack(tail, s, x);
        RestoresDeeper(l, Append(tail, s, p, x, extra), s, x, tail);
      }
    }
  }

  lemma TicketIndexed(b: Book, s: Side, x: Ticket)
    requires BookOk(b) && x in Queue(Ladder(b, s))
    ensures x.id in b.index && x in Tickets(b)
  {
    assert x in Elems(Ladder(b, s)) && x in Tickets(b);
  }

  lemma RemoveIsTakeBack(d: Book, x: Ticket)
    requires BookOk(d) && x in Tickets(d)
    ensures var s, ls := x.terms.side, Ladder(d, x.terms.side);
            && HasLevel(ls, s, x.terms.price) && x in ls[LowerBound(ls, s, x.terms.price)].orders
            && Remove(d, x) == WithLadder(d, s, TakeBack(ls, s, x)).(index := d.index - {x.id})
  {
    hide EraseAt, TicketsOk, LowerBound, IndexOf;
    TwoSides(d, x);
    Locate(Ladder(d, x.terms.side), x.terms.side, x);
  }

  lemma InsertThenRemove(c: Book, x: Ticket)
    requires BookOk(c) && x.id !in c.index && BookOk(Insert(c, x)) && x in Tickets(Insert(c, x))
    ensures Remove(Insert(c, x), x) == c
  {
    hide LadderOk, Remove, TicketsOk, EraseAt, Fifo;
    var s, d := x.terms.side, Insert(c, x);
    var ls := Ladder(c, s);
    if x in Queue(ls) {
      TicketIndexed(c, s, x);
      assert false;
    }
    assert LadderOk(ls, s);
    AppendThenTakeBack(ls, s, x);
    RemoveIsTakeBack(d, x);
    assert d.index - {x.id} == c.index;
  }

  lemma NoFillsNoChange(b: Book, r: Request)
    requires BookOk(b) && MatchOf(b, r).fills == []
    ensures MatchOf(b, r) == Matched(Facing(b, r), Taker(b, r), [])
    ensures AfterMatch(b, r) == b.(nextId := b.nextId + 1)
  {
    assert b.index - {} == b.index;
  }

  lemma NothingToTake(b: Book, r: Request)
    requires BookOk(b)
    requires |Facing(b, r)| > 0 ==> !Crosses(r.side, r.kind, r.price, Facing(b, r)[0].price)
    ensures MatchOf(b, r) == Matched(Facing(b, r), Taker(b, r), [])
  {
  }

  lemma RestedIsFound(b: Book, r: Request)
    requires BookOk(b) && r.matching == Standard && Rests(r) && r.quantity > 0 && MatchOf(b, r).taker == Taker(b, r)
    ensures var d := Settled(b, r);
            && BookOk(d) && Taker(b, r) in Tickets(d) && b.nextId in d.index && Lookup(d, b.nextId) == Taker(b, r)
  {
    SettledKeeps(b, r);
    var d, x := Settled(b, r), Taker(b, r);
    assert x in Rested(b, r) && x in Tickets(d) && x.id in Ids(Tickets(d));
    UniqueIds(d, x, Lookup(d, b.nextId));
  }

  /**
   An order that meets nothing it crosses and rests, cancelled by its owner, leaves all but the id
   counter as it was.
   */
  lemma AddThenCancel(b: Book, r: Request)
    requires BookOk(b) && Accepts(b, r) && Rests(r) && r.quantity > 0
    requires |Facing(b, r)| > 0 ==> !Crosses(r.side, r.kind, r.price, Facing(b, r)[0].price)
    ensures var o := AddOrder(b, r);
            && o.code == Success && o.fills == [] && BookOk(o.book)
            && CancelOrder(o.book, r.client, b.nextId)
               == Outcome(b.(nextId := b.nextId + 1), Success, [], [Withdrawn(b.nextId, r.quantity)])
  {
    hide LadderOk, MatchLadder, Insert, Remove, TicketsOk, Thinned, Elems;
    NothingToTake(b, r);
    AddSettles(b, r);
    NoFillsNoChange(b, r);
    SettledKeeps(b, r);
    MatchKeeps(b, r);
    RestedIsFound(b, r);
    NextIdIsFree(b);
    InsertThenRemove(AfterMatch(b, r), Taker(b, r));
  }

  // ---- Post-only -------------------------------------------------------------------------

  /** A post-only limit order that passes the pre-check takes nothing, and a Day or GTC one rests whole. */
  lemma PostOnlyNeverTakes(b: Book, r: Request)
    requires BookOk(b) && Accepts(b, r) && r.kind == Limit && r.flags.postOnly
    ensures var o := AddOrder(b, r);
            && o.fills == [] && Ladder(o.book, r.side.Opposite()) == Ladder(b, r.side.Opposite())
            && (Rests(r) && r.quantity > 0 ==> o.code == Success && Taker(b, r) in Tickets(o.book))
  {
    hide LadderOk, TicketsOk, Insert, MatchLadder, Elems;
    NothingToTake(b, r);
    NoFillsNoChange(b, r);
    AddSettles(b, r);
    SettledKeeps(b, r);
  }

  // ---- Late rejections -------------------------------------------------------------------

  /** A sweep that makes a fill leaves another queue behind. */
  lemma FillsShow(q: seq<Ticket>, taker: Ticket)
    requires taker.remaining > 0 && Sweep(q, taker).fills != []
    ensures Sweep(q, taker).left != q
  {
    var r := Sweep(q, taker);
    SweepTakesPrefix(q, taker);
    if |r.left| == |q| {
      assert |r.fills| == 1;
    }
  }

  /** Whatever crosses is touched: the ladder that the order meets is another one afterwards. */
  lemma CrossingShows(b: Book, r: Request)
    requires BookOk(b) && r.quantity > 0
    requires |Facing(b, r)| > 0 && Crosses(r.side, r.kind, r.price, Facing(b, r)[0].price)
    ensures MatchOf(b, r).ladder != Facing(b, r)
  {
    var ls := Facing(b, r);
    assert LadderOk(ls, r.side.Opposite());
    MatchIsSweep(ls, Taker(b, r));
    FillsShow(Queue(ls), Taker(b, r));
  }

  /**
   A market order for the day, or an unsupported time in force, is only rejected after matching. It
   is reported as rejected exactly when too little crosses to fill it, and even then whatever it
   could take has been taken. It changes nothing exactly when no resting order crosses.
   */
  lemma LateRejection(b: Book, r: Request)
    requires BookOk(b) && Accepts(b, r) && r.tif != IOC && r.tif != FOK && !Rests(r)
    ensures var o := AddOrder(b, r);
            && (o.code != Success <==> Crossing(b, r) < r.quantity)
            && Volume(o.fills) == (if r.quantity <= Crossing(b, r) then r.quantity else Crossing(b, r))
            && (r.quantity > 0 ==>
                  (o.book == b.(nextId := b.nextId + 1) <==> !SomeCross(Elems(Facing(b, r)), r)))
  {
    hide LadderOk, TicketsOk, MatchLadder, Insert, SomeCross, Elems;
    AcceptedFills(b, r);
    TakerTerms(b, r);
    AddSettles(b, r);
    MatchKeeps(b, r);
    TopDecides(b, r);
    if r.quantity > 0 {
      if |Facing(b, r)| > 0 && Crosses(r.side, r.kind, r.price, Facing(b, r)[0].price) {
        CrossingShows(b, r);
      } else {
        NothingToTake(b, r);
        NoFillsNoChange(b, r);
      }
    }
  }
}
