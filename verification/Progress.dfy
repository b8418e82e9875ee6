/** The matching loop seen from the book: what one round does, and what all rounds together do. */
module Progress {
  import opened Types
  import opened Ladders
  import opened Books
  import opened Matching
  import opened Commands
  import opened Events

  lemma ChargeHas(c: Book, x: Ticket, left: Quantity, d: int)
    requires BookOk(c) && x in Tickets(c) && left <= x.remaining
    ensures x.(remaining := left) in Tickets(Update(c, x, left, d))
  {
    UpdateKeeps(c, x, left, d);
  }

  lemma ChargeOk(c: Book, x: Ticket, left: Quantity, d: int)
    requires BookOk(c) && x in Tickets(c) && left <= x.remaining
    ensures BookOk(Update(c, x, left, d))
  {
    UpdateKeeps(c, x, left, d);
  }

  /**
   The book after a fill has left the top order `x` with `left`, and has put `d` on the volume of its
   level; with nothing left the order has been cancelled.
   */
  ghost function Round(c: Book, x: Ticket, left: Quantity, d: int): Book
    requires BookOk(c) && x in Tickets(c) && left <= x.remaining
  {
    if left > 0 then Update(c, x, left, d)
    else
      ChargeOk(c, x, 0, d);
      ChargeHas(c, x, 0, d);
      Remove(Update(c, x, 0, d), x.(remaining := 0))
  }

  lemma TopTicket(c: Book, s: Side)
    requires BookOk(c) && |Ladder(c, s)| > 0
    ensures |Ladder(c, s)[0].orders| > 0
    ensures var x := Ladder(c, s)[0].orders[0];
            && x in Tickets(c) && x in Elems(Ladder(c, s))
            && x.terms.side == s && x.terms.price == Ladder(c, s)[0].price
            && LowerBound(Ladder(c, s), s, x.terms.price) == 0 && IndexOf(Ladder(c, s)[0].orders, x) == 0
  {
    var ls := Ladder(c, s);
    assert LadderOk(ls, s);
    LocateAt(ls, s, 0, 0);
    assert Queue(ls)[0] == ls[0].orders[0];
  }

  lemma EraseEmptied(ls: seq<Level<Ticket>>, y: Ticket, volume: Quantity)
    requires |ls| > 0 && |ls[0].orders| > 0
    ensures EraseAt(UpdateAt(ls, 0, 0, y, volume), 0, 0, volume)
         == if |ls[0].orders| == 1 then ls[1..] else [Level(ls[0].price, volume, ls[0].orders[1..])] + ls[1..]
  {
    var ms := UpdateAt(ls, 0, 0, y, volume);
    assert ms[0].orders[..0] + ms[0].orders[1..] == ls[0].orders[1..];
    assert ms[1..] == ls[1..];
  }

  lemma RemoveTop(d: Book, s: Side, y: Ticket)
    requires BookOk(d) && |Ladder(d, s)| > 0 && |Ladder(d, s)[0].orders| > 0
    requires y == Ladder(d, s)[0].orders[0] && y in Tickets(d) && y.remaining == 0
    ensures Remove(d, y)
         == WithLadder(d, s, EraseAt(Ladder(d, s), 0, 0, Ladder(d, s)[0].volume)).(index := d.index - {y.id})
  {
    TopTicket(d, s);
  }

  lemma ChargeTop(c: Book, s: Side, left: Quantity, d: int)
    requires BookOk(c) && |Ladder(c, s)| > 0 && |Ladder(c, s)[0].orders| > 0
    requires Ladder(c, s)[0].orders[0] in Tickets(c) && left <= Ladder(c, s)[0].orders[0].remaining
    ensures var ls := Ladder(c, s);
            var x := ls[0].orders[0];
            Update(c, x, left, d)
            == WithLadder(c, s, UpdateAt(ls, 0, 0, x.(remaining := left), Wrap(ls[0].volume + d)))
  {
    hide LadderOk, TicketsOk, Fifo;
    TopTicket(c, s);
  }

  lemma RoundRemoves(c: Book, s: Side, d: int)
    requires BookOk(c) && |Ladder(c, s)| > 0 && |Ladder(c, s)[0].orders| > 0
    requires Ladder(c, s)[0].orders[0] in Tickets(c)
    ensures var ls := Ladder(c, s);
            var x := ls[0].orders[0];
            var volume := Wrap(ls[0].volume + d);
            Round(c, x, 0, d)
            == WithLadder(c, s, EraseAt(UpdateAt(ls, 0, 0, x.(remaining := 0), volume), 0, 0, volume))
                 .(index := c.index - {x.id})
  {
    var x := Ladder(c, s)[0].orders[0];
    ChargeOk(c, x, 0, d);
    ChargeHas(c, x, 0, d);
    ChargeTop(c, s, 0, d);
    RemoveTop(Update(c, x, 0, d), s, x.(remaining := 0));
  }

  /** Filling the top and cancelling it when it is empty is what the ladder matcher does in one step. */
  lemma RoundIsFillTop(c: Book, s: Side, quantity: Quantity)
    requires BookOk(c) && |Ladder(c, s)| > 0 && |Ladder(c, s)[0].orders| > 0
    requires Ladder(c, s)[0].orders[0] in Tickets(c) && quantity <= Ladder(c, s)[0].orders[0].remaining
    ensures var x := Ladder(c, s)[0].orders[0];
            Round(c, x, x.remaining - quantity, 0 - quantity)
            == WithLadder(c, s, FillTop(Ladder(c, s), quantity))
                 .(index := if quantity < x.remaining then c.index else c.index - {x.id})
  {
    hide LadderOk, Update, Remove, TicketsOk, EraseAt, Elems, Tickets, Queue;
    var ls := Ladder(c, s);
    var x := ls[0].orders[0];
    var left: Quantity, volume := x.remaining - quantity, Wrap(ls[0].volume - quantity);
    TopTicket(c, s);
    ChargeTop(c, s, left, 0 - quantity);
    if left > 0 {
      assert ls[0].orders[0 := x.(remaining := left)] == [x.(remaining := left)] + ls[0].orders[1..];
    } else {
      RoundRemoves(c, s, 0 - quantity);
      EraseEmptied(ls, x.(remaining := 0), volume);
    }
  }

  // ---- All rounds ------------------------------------------------------------------------

  lemma {:induction false} RecordOneMore(t: Tape, fills: seq<Fill>, f: Fill)
    ensures RecordAll(t, fills + [f]) == Record(RecordAll(t, fills), f)
    decreases |fills|
  {
    if |fills| > 0 {
      RecordOneMore(Record(t, fills[0]), fills[1..], f);
      assert (fills + [f])[1..] == fills[1..] + [f];
    } else {
      assert [] + [f] == [f];
      assert RecordAll(Record(t, f), []) == Record(t, f);
    }
  }

  lemma {:induction false} FilledOneMore(fills: seq<Fill>, f: Fill)
    ensures FilledIds(fills + [f])
         == FilledIds(fills) + if f.quantity == f.maker.remaining then {f.maker.id} else {}
  {
    if |fills| > 0 {
      FilledOneMore(fills[1..], f);
      assert (fills + [f])[1..] == fills[1..] + [f];
    } else {
      assert [] + [f] == [f];
      FilledCons(f, []);
    }
  }

  /** Matching `t` on `ls` has made the fills `done`, and goes on as matching `u` on `now`. */
  ghost predicate OnCourse(ls: seq<Level<Ticket>>, t: Ticket, now: seq<Level<Ticket>>, u: Ticket, done: seq<Fill>) {
    && LadderOk(ls, t.terms.side.Opposite()) && LadderOk(now, t.terms.side.Opposite())
    && u == t.(remaining := u.remaining)
    && var m, rest := MatchLadder(ls, t), MatchLadder(now, u);
    m == Matched(rest.ladder, rest.taker, done + rest.fills)
  }

  /** Only the ladder `s` and the ids of the filled orders tell `c` from `b`. */
  ghost predicate OnlyFilled(b: Book, c: Book, s: Side, done: seq<Fill>) {
    c == WithLadder(b, s, Ladder(c, s)).(index := b.index - FilledIds(done))
  }

  /**
   Part of the way through matching the taker `t` on the book `b`: the fills `done` are made, the
   book is `c`, the taker stands at `u`, and what is still to come is what matching `u` on `c` gives.
   */
  ghost predicate Underway(b: Book, t: Ticket, c: Book, u: Ticket, done: seq<Fill>) {
    var s := t.terms.side.Opposite();
    BookOk(b) && BookOk(c) && OnlyFilled(b, c, s, done) && OnCourse(Ladder(b, s), t, Ladder(c, s), u, done)
  }

  lemma UnderwayStart(b: Book, t: Ticket)
    requires BookOk(b)
    ensures Underway(b, t, b, t, [])
  {
    assert b.index - {} == b.index;
    var fills := MatchLadder(Ladder(b, t.terms.side.Opposite()), t).fills;
    assert [] + fills == fills;
  }

  lemma UnderwayStop(b: Book, t: Ticket, c: Book, u: Ticket, done: seq<Fill>)
    requires Underway(b, t, c, u, done)
    requires var ls := Ladder(c, t.terms.side.Opposite());
             u.remaining == 0 || |ls| == 0 || !TicketCrosses(u, ls[0].price)
    ensures var s := t.terms.side.Opposite();
            var m := MatchLadder(Ladder(b, s), t);
            && m.taker == u && m.fills == done
            && c == WithLadder(b, s, m.ladder).(index := b.index - FilledIds(m.fills))
  {
    assert done + [] == done;
  }

  /** What makes the loop end: the queue of the facing side, then the quantity of the taker. */
  ghost function Ahead(c: Book, s: Side): nat {
    |Queue(Ladder(c, s))|
  }

  lemma CourseStep(ls: seq<Level<Ticket>>, t: Ticket, now: seq<Level<Ticket>>, u: Ticket, done: seq<Fill>, f: Fill)
    requires OnCourse(ls, t, now, u, done) && u.remaining > 0
    requires |now| > 0 && TicketCrosses(u, now[0].price) && |now[0].orders| > 0
    requires f == Fill(u, now[0].orders[0], Min(u.remaining, now[0].orders[0].remaining))
    ensures OnCourse(ls, t, FillTop(now, f.quantity), AfterFill(u, f.quantity), done + [f])
    ensures var next := Queue(FillTop(now, f.quantity));
            |next| < |Queue(now)| || (|next| == |Queue(now)| && f.quantity > 0)
  {
    hide LadderOk, Wrap, Queue;
    FillTopOk(now, t.terms.side.Opposite(), f.quantity);
    var rest := MatchLadder(FillTop(now, f.quantity), AfterFill(u, f.quantity));
    assert done + ([f] + rest.fills) == done + [f] + rest.fills;
  }

  lemma OnlyFilledStep(b: Book, c: Book, s: Side, done: seq<Fill>, f: Fill, ls: seq<Level<Ticket>>)
    requires OnlyFilled(b, c, s, done)
    requires f.quantity <= f.maker.remaining
    ensures var index := if f.quantity < f.maker.remaining then c.index else c.index - {f.maker.id};
            OnlyFilled(b, WithLadder(c, s, ls).(index := index), s, done + [f])
  {
    FilledOneMore(done, f);
    assert b.index - FilledIds(done) - {f.maker.id} == b.index - (FilledIds(done) + {f.maker.id});
  }

  lemma UnderwayJoin(b: Book, t: Ticket, c: Book, u: Ticket, done: seq<Fill>, f: Fill, d: Book)
    requires Underway(b, t, c, u, done) && u.remaining > 0 && BookOk(d)
    requires var ls := Ladder(c, t.terms.side.Opposite());
             && |ls| > 0 && TicketCrosses(u, ls[0].price) && |ls[0].orders| > 0
             && f == Fill(u, ls[0].orders[0], Min(u.remaining, ls[0].orders[0].remaining))
             && d == WithLadder(c, t.terms.side.Opposite(), FillTop(ls, f.quantity))
                       .(index := if f.quantity < f.maker.remaining then c.index else c.index - {f.maker.id})
    ensures Underway(b, t, d, AfterFill(u, f.quantity), done + [f])
    ensures var s := t.terms.side.Opposite();
            Ahead(d, s) < Ahead(c, s) || (Ahead(d, s) == Ahead(c, s) && f.quantity > 0)
  {
    var s := t.terms.side.Opposite();
    CourseStep(Ladder(b, s), t, Ladder(c, s), u, done, f);
    OnlyFilledStep(b, c, s, done, f, FillTop(Ladder(c, s), f.quantity));
  }

  lemma RoundKeeps(c: Book, x: Ticket, left: Quantity, d: int)
    requires BookOk(c) && x in Tickets(c) && left <= x.remaining
    ensures BookOk(Round(c, x, left, d))
  {
    ChargeOk(c, x, left, d);
    if left == 0 {
      ChargeHas(c, x, 0, d);
      RemoveKeeps(Update(c, x, 0, d), x.(remaining := 0));
    }
  }

  lemma UnderwayStep(b: Book, t: Ticket, c: Book, u: Ticket, done: seq<Fill>, f: Fill)
    requires Underway(b, t, c, u, done) && u.remaining > 0
    requires var ls := Ladder(c, t.terms.side.Opposite());
             && |ls| > 0 && TicketCrosses(u, ls[0].price) && |ls[0].orders| > 0 && ls[0].orders[0] in Tickets(c)
             && f == Fill(u, ls[0].orders[0], Min(u.remaining, ls[0].orders[0].remaining))
    ensures var d, s := Round(c, f.maker, f.maker.remaining - f.quantity, 0 - f.quantity), t.terms.side.Opposite();
            && Underway(b, t, d, AfterFill(u, f.quantity), done + [f])
            && (Ahead(d, s) < Ahead(c, s) || (Ahead(d, s) == Ahead(c, s) && f.quantity > 0))
  {
    hide BookOk, Round, LadderOk, FillTop, OnCourse;
    var s := t.terms.side.Opposite();
    RoundKeeps(c, f.maker, f.maker.remaining - f.quantity, 0 - f.quantity);
    RoundIsFillTop(c, s, f.quantity);
    UnderwayJoin(b, t, c, u, done, f, Round(c, f.maker, f.maker.remaining - f.quantity, 0 - f.quantity));
  }

  /** After the update every other ticket stands as before, and under another id. */
  lemma OthersStand(b: Book, x: Ticket, r: Quantity, d: int)
    requires BookOk(b) && x in Tickets(b) && r <= x.remaining
    ensures BookOk(Update(b, x, r, d)) && x.(remaining := r) in Tickets(Update(b, x, r, d))
    ensures Update(b, x, r, d).nextId == b.nextId
    ensures forall y {:trigger y in Tickets(Update(b, x, r, d))} ::
              y in Tickets(Update(b, x, r, d)) ==> y == x.(remaining := r) || (y in Tickets(b) && y.id != x.id)
  {
    UpdateKeeps(b, x, r, d);
    forall y | y in Tickets(Update(b, x, r, d)) ensures y == x.(remaining := r) || (y in Tickets(b) && y.id != x.id) {
      if y in Tickets(b) && y.id == x.id && y != x {
        UniqueIds(b, x, y);
      }
    }
  }
}
