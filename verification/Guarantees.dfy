/** What every book object promises, however it was used: the laws of sessions, read off the object itself. */
module Guarantees {
  import opened Types
  import opened Ladders
  import opened Books
  import opened Commands
  import opened Mirrors
  import opened OrderBooks
  import opened VolumeLaw
  import Ledger

  /** The volume kept in level `i` is given by the exact law, from its orders and the session's history. */
  lemma VolumeKept(book: OrderBook, s: Side, i: nat)
    requires book.Live() && i < |Pick(s, book.bids, book.asks)|
    ensures i < |Ladder(book.model, s)|
    ensures var l, log := Pick(s, book.bids, book.asks)[i], Session(book.commands).log;
            l.volume == Wrap(VisibleSum(Ladder(book.model, s)[i].orders) + Drift(log, s, l.price))
  {
    hide BookOk, Session, VisibleSum, Drift, LadderOk;
    MirrorAt(Pick(s, book.bids, book.asks), Ladder(book.model, s), book.index, i);
    SessionVolumes(book.commands, s, i);
  }

  /** Quantity is conserved for every id, and what an indexed order object has left is what is open under its id. */
  lemma Conserved(book: OrderBook, id: OrderID)
    requires book.Live()
    ensures var log := Session(book.commands).log;
            Ledger.IssuedTo(log, id)
            == Ledger.MatchedFor(log, id) + Ledger.Open(book.model, id) + Ledger.WithdrawnFrom(log, id)
    ensures id in book.index ==> Ledger.Open(book.model, id) == book.index[id].node.remaining
    ensures id !in book.index ==> Ledger.Open(book.model, id) == 0
  {
    Ledger.SessionConserves(book.commands, id);
    if id in book.index {
      Ledger.OpenOf(book.model, Lookup(book.model, id));
    } else {
      Ledger.NothingOpen(book.model, id);
    }
  }

  lemma LevelHasTicket(b: Book, s: Side, i: nat)
    requires BookOk(b) && i < |Ladder(b, s)|
    ensures |Ladder(b, s)[i].orders| > 0
    ensures var x := Ladder(b, s)[i].orders[0]; x in Elems(Ladder(b, s)) && x.terms.price == Ladder(b, s)[i].price
  {
    var ls := Ladder(b, s);
    assert LadderOk(ls, s);
    LevelAt(ls, s, i);
    LocateAt(ls, s, i, 0);
    QueueAt(ls, i, 0);
  }

  /** Every bid object's price is below every ask object's price. */
  lemma NeverCrossed(book: OrderBook, i: nat, j: nat)
    requires book.Live() && i < |book.bids| && j < |book.asks|
    ensures book.bids[i].price < book.asks[j].price
  {
    var b := book.model;
    MirrorAt(book.bids, b.bids, book.index, i);
    MirrorAt(book.asks, b.asks, book.index, j);
    LevelHasTicket(b, Buy, i);
    LevelHasTicket(b, Sell, j);
  }
}
