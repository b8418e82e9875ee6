/**
 What the cached volume of a price level really is. It is not always the visible quantity of the
 level: shrinking a visible order in place raises it, and filling a hidden order lowers it. The law
 below is exact, modulo 2^64, over every session; the drift is read off the session's history.
 */
module VolumeLaw {
  import opened Types
  import opened Ladders
  import opened Books
  import opened Matching
  import opened Commands

  function Visible(x: Ticket): nat {
    if x.terms.flags.hidden then 0 else x.remaining
  }

  function VisibleSum(orders: seq<Ticket>): nat {
    if |orders| == 0 then 0 else Visible(orders[0]) + VisibleSum(orders[1..])
  }

  /** How one action moves the drift `d` of the level at `p` on the side `s`. */
  function Drifts(d: int, a: Action, s: Side, p: Price): int {
    match a
    case Opened(side, price) => if side == s && price == p then 0 else d
    case Reduced(x, quantity) =>
      if x.terms.side == s && x.terms.price == p && !x.terms.flags.hidden then d + 2 * quantity else d
    case Traded(f) =>
      if f.maker.terms.side == s && f.maker.terms.price == p && f.maker.terms.flags.hidden then d - f.quantity else d
    case _ => d
  }

  /** Twice the visible in-place reductions, less the hidden fills, since the level was created. */
  function Drift(log: seq<Action>, s: Side, p: Price): int {
    if |log| == 0 then 0 else Drifts(Drift(log[..|log| - 1], s, p), log[|log| - 1], s, p)
  }

  lemma DriftPush(log: seq<Action>, a: Action, s: Side, p: Price)
    ensures Drift(log + [a], s, p) == Drifts(Drift(log, s, p), a, s, p)
  {
    assert (log + [a])[..|log|] == log;
  }

  ghost predicate LevelLaw(l: Level<Ticket>, s: Side, log: seq<Action>) {
    l.volume == Wrap(VisibleSum(l.orders) + Drift(log, s, l.price))
  }

  ghost predicate LadderLaw(ls: seq<Level<Ticket>>, s: Side, log: seq<Action>) {
    |ls| == 0 || (LevelLaw(ls[0], s, log) && LadderLaw(ls[1..], s, log))
  }

  ghost predicate BookLaw(b: Book, log: seq<Action>) {
    LadderLaw(b.bids, Buy, log) && LadderLaw(b.asks, Sell, log)
  }

  // ---- Actions elsewhere -----------------------------------------------------------------

  /** `a` leaves the drift of every level of `ls` alone. */
  ghost predicate Spares(a: Action, ls: seq<Level<Ticket>>, s: Side) {
    |ls| == 0
    || ((forall d {:trigger Drifts(d, a, s, ls[0].price)} :: Drifts(d, a, s, ls[0].price) == d)
        && Spares(a, ls[1..], s))
  }

  lemma {:induction false} SparedLaw(ls: seq<Level<Ticket>>, s: Side, log: seq<Action>, a: Action)
    requires Spares(a, ls, s) && LadderLaw(ls, s, log)
    ensures LadderLaw(ls, s, log + [a])
  {
    if |ls| == 0 {
    } else {
      SparedLaw(ls[1..], s, log, a);
      DriftPush(log, a, s, ls[0].price);
    }
  }

  predicate Silent(a: Action) {
    a.Issued? || a.Withdrawn?
  }

  lemma {:induction false} SilentSpares(a: Action, ls: seq<Level<Ticket>>, s: Side)
    requires Silent(a)
    ensures Spares(a, ls, s)
  {
    if |ls| == 0 {
    } else {
      SilentSpares(a, ls[1..], s);
    }
  }

  function SideOf(a: Action): Side
    requires !Silent(a)
  {
    match a
    case Opened(side, _) => side
    case Reduced(x, _) => x.terms.side
    case Traded(f) => f.maker.terms.side
  }

  function PriceOf(a: Action): Price
    requires !Silent(a)
  {
    match a
    case Opened(_, price) => price
    case Reduced(x, _) => x.terms.price
    case Traded(f) => f.maker.terms.price
  }

  lemma {:induction false} OtherSideSpares(a: Action, ls: seq<Level<Ticket>>, s: Side)
    requires !Silent(a) && SideOf(a) != s
    ensures Spares(a, ls, s)
  {
    if |ls| == 0 {
    } else {
      OtherSideSpares(a, ls[1..], s);
    }
  }

  lemma {:induction false} BetterPriceSpares(a: Action, ls: seq<Level<Ticket>>, s: Side)
    requires !Silent(a) && LadderOk(ls, s) && (|ls| > 0 ==> Better(s, PriceOf(a), ls[0].price))
    ensures Spares(a, ls, s)
  {
    if |ls| == 0 {
    } else {
      BetterPriceSpares(a, ls[1..], s);
    }
  }

  lemma QuietLaw(b: Book, log: seq<Action>, a: Action)
    requires Silent(a) && BookLaw(b, log)
    ensures BookLaw(b, log + [a])
  {
    SilentSpares(a, b.bids, Buy);
    SilentSpares(a, b.asks, Sell);
    SparedLaw(b.bids, Buy, log, a);
    SparedLaw(b.asks, Sell, log, a);
  }

  // ---- Matching --------------------------------------------------------------------------

  lemma WrapShift(v: Quantity, x: int, d: int)
    requires v == Wrap(x)
    ensures Wrap(v + d) == Wrap(x + d)
  {
    WrapAbsorbs(x, d);
  }

  lemma FillTopLaw(ls: seq<Level<Ticket>>, s: Side, log: seq<Action>, f: Fill)
    requires LadderOk(ls, s) && LadderLaw(ls, s, log) && |ls| > 0
    requires f.maker == ls[0].orders[0] && f.quantity <= f.maker.remaining
    ensures LadderLaw(FillTop(ls, f.quantity), s, log + [Traded(f)])
  {
    var l, a := ls[0], Traded(f);
    LocateAt(ls, s, 0, 0);
    BetterPriceSpares(a, ls[1..], s);
    SparedLaw(ls[1..], s, log, a);
    DriftPush(log, a, s, l.price);
    var x := AfterFill(f.maker, f.quantity);
    var before := VisibleSum(l.orders) + Drift(log, s, l.price);
    WrapShift(l.volume, before, 0 - f.quantity);
    assert ([x] + l.orders[1..])[1..] == l.orders[1..];
    assert VisibleSum([x] + l.orders[1..]) + Drift(log + [a], s, l.price) == before - f.quantity;
  }

  lemma TradesCons(log: seq<Action>, f: Fill, fills: seq<Fill>)
    ensures log + [Traded(f)] + Trades(fills) == log + Trades([f] + fills)
  {
    assert ([f] + fills)[1..] == fills;
  }

  lemma {:induction false} MatchLaw(ls: seq<Level<Ticket>>, taker: Ticket, log: seq<Action>)
    requires LadderOk(ls, taker.terms.side.Opposite()) && LadderLaw(ls, taker.terms.side.Opposite(), log)
    ensures var m := MatchLadder(ls, taker);
            LadderLaw(m.ladder, taker.terms.side.Opposite(), log + Trades(m.fills))
    decreases |Queue(ls)|, taker.remaining
  {
    if taker.remaining == 0 || |ls| == 0 || !TicketCrosses(taker, ls[0].price) {
      assert log + [] == log;
    } else {
      var f := Fill(taker, ls[0].orders[0], Min(taker.remaining, ls[0].orders[0].remaining));
      var t := AfterFill(taker, f.quantity);
      FillTopOk(ls, taker.terms.side.Opposite(), f.quantity);
      FillTopLaw(ls, taker.terms.side.Opposite(), log, f);
      MatchLaw(FillTop(ls, f.quantity), t, log + [Traded(f)]);
      TradesCons(log, f, MatchLadder(FillTop(ls, f.quantity), t).fills);
    }
  }

  /** The taker's own side does not notice the trades. */
  lemma {:induction false} TradesElsewhere(ls: seq<Level<Ticket>>, s: Side, log: seq<Action>, fills: seq<Fill>)
    requires LadderLaw(ls, s, log)
    requires forall i :: 0 <= i < |fills| ==> fills[i].maker.terms.side != s
    ensures LadderLaw(ls, s, log + Trades(fills))
    decreases |fills|
  {
    if |fills| == 0 {
      assert log + [] == log;
    } else {
      OtherSideSpares(Traded(fills[0]), ls, s);
      SparedLaw(ls, s, log, Traded(fills[0]));
      TradesElsewhere(ls, s, log + [Traded(fills[0])], fills[1..]);
      TradesCons(log, fills[0], fills[1..]);
      assert [fills[0]] + fills[1..] == fills;
    }
  }

  lemma MakersOpposite(b: Book, r: Request)
    requires BookOk(b)
    ensures var fills := MatchOf(b, r).fills;
            forall i :: 0 <= i < |fills| ==> fills[i].maker.terms.side != r.side
  {
    var ls, s, fills := Facing(b, r), r.side.Opposite(), MatchOf(b, r).fills;
    assert LadderOk(ls, s);
    MatchIsSweep(ls, Taker(b, r));
    SweepTakesPrefix(Queue(ls), Taker(b, r));
    forall i | 0 <= i < |fills| ensures fills[i].maker.terms.side != r.side {
      assert fills[i].maker == Queue(ls)[i] && Queue(ls)[i] in Queue(ls);
      Locate(ls, s, Queue(ls)[i]);
    }
  }

  lemma AfterMatchLaw(b: Book, r: Request, log: seq<Action>)
    requires BookOk(b) && BookLaw(b, log)
    ensures BookLaw(AfterMatch(b, r), log + [Issued(Taker(b, r))] + Trades(MatchOf(b, r).fills))
  {
    var log' := log + [Issued(Taker(b, r))];
    QuietLaw(b, log, Issued(Taker(b, r)));
    MakersOpposite(b, r);
    var s := r.side.Opposite();
    assert LadderLaw(Facing(b, r), s, log') && LadderLaw(Ladder(b, r.side), r.side, log');
    assert LadderOk(Facing(b, r), s);
    MatchLaw(Facing(b, r), Taker(b, r), log');
    TradesElsewhere(Ladder(b, r.side), r.side, log', MatchOf(b, r).fills);
  }

  // ---- Resting, cancelling, shrinking ----------------------------------------------------

  lemma {:induction false} SumPush(orders: seq<Ticket>, x: Ticket)
    ensures VisibleSum(orders + [x]) == VisibleSum(orders) + Visible(x)
  {
    if |orders| > 0 {
      SumPush(orders[1..], x);
      assert (orders + [x])[1..] == orders[1..] + [x];
    } else {
      assert orders + [x] == [x];
    }
  }

  lemma {:induction false} SumErase(orders: seq<Ticket>, j: nat)
    requires j < |orders|
    ensures VisibleSum(orders[..j] + orders[j + 1..]) == VisibleSum(orders) - Visible(orders[j])
  {
    var out := orders[..j] + orders[j + 1..];
    if j == 0 {
      assert out == orders[1..];
    } else {
      SumErase(orders[1..], j - 1);
      assert out[1..] == orders[1..][..j - 1] + orders[1..][j..];
    }
  }

  lemma {:induction false} SumReplace(orders: seq<Ticket>, j: nat, x: Ticket)
    requires j < |orders|
    ensures VisibleSum(orders[j := x]) == VisibleSum(orders) - Visible(orders[j]) + Visible(x)
  {
    if j == 0 {
      assert orders[0 := x][1..] == orders[1..];
    } else {
      SumReplace(orders[1..], j - 1, x);
      assert orders[j := x][1..] == orders[1..][j - 1 := x];
    }
  }

  lemma {:induction false} EraseLaw(ls: seq<Level<Ticket>>, s: Side, log: seq<Action>, i: nat, j: nat, volume: Quantity)
    requires LadderLaw(ls, s, log) && i < |ls| && j < |ls[i].orders|
    requires volume == Wrap(ls[i].volume - Visible(ls[i].orders[j]))
    ensures LadderLaw(EraseAt(ls, i, j, volume), s, log)
    decreases i
  {
    if i > 0 {
      EraseLaw(ls[1..], s, log, i - 1, j, volume);
    } else {
      SumErase(ls[0].orders, j);
      WrapShift(ls[0].volume, VisibleSum(ls[0].orders) + Drift(log, s, ls[0].price), 0 - Visible(ls[0].orders[j]));
    }
  }

  lemma RemoveFromLaw(ls: seq<Level<Ticket>>, s: Side, x: Ticket, log: seq<Action>)
    requires LadderOk(ls, s) && x in Elems(ls) && LadderLaw(ls, s, log)
    ensures LadderLaw(RemoveFrom(ls, s, x), s, log)
  {
    Locate(ls, s, x);
    var i := LowerBound(ls, s, x.terms.price);
    EraseLaw(ls, s, log, i, IndexOf(ls[i].orders, x),
             if x.terms.flags.hidden then ls[i].volume else Wrap(ls[i].volume - x.remaining));
  }

  lemma RemoveLaw(b: Book, x: Ticket, log: seq<Action>)
    requires BookOk(b) && x in Tickets(b) && BookLaw(b, log)
    ensures BookLaw(Remove(b, x), log)
  {
    TwoSides(b, x);
    RemoveFromLaw(Ladder(b, x.terms.side), x.terms.side, x, log);
  }

  lemma ShrinkWrap(n: int, was: Quantity, now: Quantity)
    requires now <= was
    ensures Wrap(n - Wrap(now - was)) == Wrap(n + was - now)
  {
    if now < was {
      assert Wrap(now - was) == now - was + TWO_TO_THE_64;
      assert Wrap(n + was - now - TWO_TO_THE_64) == Wrap(n + was - now);
    }
  }

  lemma ShrinkVolume(volume: Quantity, n: int, x: Ticket, quantity: Quantity)
    requires volume == Wrap(n) && quantity <= x.remaining
    ensures Wrap(volume + ShrinkDelta(x, quantity))
         == if x.terms.flags.hidden then Wrap(n) else Wrap(n + x.remaining - quantity)
  {
    WrapShift(volume, n, ShrinkDelta(x, quantity));
    ShrinkWrap(n, x.remaining, quantity);
  }

  /** Shrinking by `n` adds `n` to the volume where the visible quantity falls by `n`. */
  lemma ShrinkLevelLaw(l: Level<Ticket>, s: Side, log: seq<Action>, j: nat, quantity: Quantity)
    requires LevelLaw(l, s, log) && j < |l.orders| && quantity <= l.orders[j].remaining
    requires l.orders[j].terms.side == s && l.orders[j].terms.price == l.price
    ensures var x := l.orders[j];
            var orders, volume := l.orders[j := x.(remaining := quantity)], Wrap(l.volume + ShrinkDelta(x, quantity));
            LevelLaw(Level(l.price, volume, orders), s, log + [Reduced(x, x.remaining - quantity)])
  {
    hide Wrap, ShrinkDelta, Drift, VisibleSum;
    var x := l.orders[j];
    DriftPush(log, Reduced(x, x.remaining - quantity), s, l.price);
    SumReplace(l.orders, j, x.(remaining := quantity));
    ShrinkVolume(l.volume, VisibleSum(l.orders) + Drift(log, s, l.price), x, quantity);
  }

  lemma OtherPriceLaw(l: Level<Ticket>, s: Side, log: seq<Action>, a: Action)
    requires LevelLaw(l, s, log) && a.Reduced? && a.ticket.terms.price != l.price
    ensures LevelLaw(l, s, log + [a])
  {
    DriftPush(log, a, s, l.price);
  }

  lemma {:induction false} ShrinkLadderLaw(ls: seq<Level<Ticket>>, s: Side, log: seq<Action>, i: nat, j: nat,
                                           quantity: Quantity)
    requires LadderOk(ls, s) && LadderLaw(ls, s, log) && i < |ls| && j < |ls[i].orders|
    requires quantity <= ls[i].orders[j].remaining
    ensures var x := ls[i].orders[j];
            LadderLaw(UpdateAt(ls, i, j, x.(remaining := quantity), Wrap(ls[i].volume + ShrinkDelta(x, quantity))), s,
                      log + [Reduced(x, x.remaining - quantity)])
    decreases i
  {
    hide LevelLaw, Drift, VisibleSum, ShrinkDelta;
    var x := ls[i].orders[j];
    var a := Reduced(x, x.remaining - quantity);
    LocateAt(ls, s, i, j);
    if i > 0 {
      ShrinkLadderLaw(ls[1..], s, log, i - 1, j, quantity);
      LevelAt(ls, s, i);
      OtherPriceLaw(ls[0], s, log, a);
    } else {
      BetterPriceSpares(a, ls[1..], s);
      SparedLaw(ls[1..], s, log, a);
      ShrinkLevelLaw(ls[0], s, log, j, quantity);
    }
  }

  lemma ShrinkInLaw(ls: seq<Level<Ticket>>, s: Side, x: Ticket, quantity: Quantity, log: seq<Action>)
    requires LadderOk(ls, s) && x in Elems(ls) && LadderLaw(ls, s, log) && quantity <= x.remaining
    ensures LadderLaw(UpdateIn(ls, s, x, quantity, ShrinkDelta(x, quantity)), s,
                      log + [Reduced(x, x.remaining - quantity)])
  {
    Locate(ls, s, x);
    var i := LowerBound(ls, s, x.terms.price);
    ShrinkLadderLaw(ls, s, log, i, IndexOf(ls[i].orders, x), quantity);
  }

  lemma ShrinkLaw(b: Book, x: Ticket, quantity: Quantity, log: seq<Action>)
    requires BookOk(b) && x in Tickets(b) && BookLaw(b, log) && quantity <= x.remaining
    ensures BookLaw(Shrink(b, x, quantity), log + [Reduced(x, x.remaining - quantity)])
  {
    TwoSides(b, x);
    var s, a := x.terms.side, Reduced(x, x.remaining - quantity);
    ShrinkInLaw(Ladder(b, s), s, x, quantity, log);
    OtherSideSpares(a, Ladder(b, s.Opposite()), s.Opposite());
    SparedLaw(Ladder(b, s.Opposite()), s.Opposite(), log, a);
  }

  lemma NewLevelLaw(ls: seq<Level<Ticket>>, s: Side, x: Ticket, log: seq<Action>)
    requires LadderOk(ls, s) && LadderLaw(ls, s, log)
    requires |ls| == 0 || Better(s, x.terms.price, ls[0].price)
    ensures LadderLaw([Level(x.terms.price, Visible(x), [x])] + ls, s, log + [Opened(s, x.terms.price)])
  {
    var p := x.terms.price;
    var l, a := Level(p, Visible(x), [x]), Opened(s, p);
    BetterPriceSpares(a, ls, s);
    SparedLaw(ls, s, log, a);
    DriftPush(log, a, s, p);
    assert l.orders[1..] == [] && VisibleSum(l.orders) == Visible(x);
    assert ([l] + ls)[1..] == ls;
  }

  lemma SameLevelLaw(l: Level<Ticket>, s: Side, x: Ticket, log: seq<Action>)
    requires LevelLaw(l, s, log)
    ensures LevelLaw(Level(l.price, Wrap(l.volume + Visible(x)), l.orders + [x]), s, log)
  {
    SumPush(l.orders, x);
    WrapShift(l.volume, VisibleSum(l.orders) + Drift(log, s, l.price), Visible(x));
  }

  /** The creation of a level leaves the law of another level alone. */
  lemma OtherLevelLaw(l: Level<Ticket>, s: Side, p: Price, log: seq<Action>)
    requires LevelLaw(l, s, log) && l.price != p
    ensures LevelLaw(l, s, log + [Opened(s, p)])
  {
    DriftPush(log, Opened(s, p), s, l.price);
  }

  lemma LadderLawCons(l: Level<Ticket>, ls: seq<Level<Ticket>>, s: Side, log: seq<Action>)
    requires LevelLaw(l, s, log) && LadderLaw(ls, s, log)
    ensures LadderLaw([l] + ls, s, log)
  {
    assert ([l] + ls)[1..] == ls;
  }

  lemma LowerBoundCons(ls: seq<Level<Ticket>>, s: Side, p: Price)
    requires |ls| > 0 && Better(s, ls[0].price, p)
    ensures HasLevel(ls, s, p) == HasLevel(ls[1..], s, p)
  {
  }

  lemma {:induction false} AppendLaw(ls: seq<Level<Ticket>>, s: Side, x: Ticket, log: seq<Action>)
    requires LadderOk(ls, s) && LadderLaw(ls, s, log)
    ensures var p := x.terms.price;
            LadderLaw(Append(ls, s, p, x, Visible(x)), s, log + if HasLevel(ls, s, p) then [] else [Opened(s, p)])
  {
    hide LevelLaw, Drift, VisibleSum, LevelOk;
    var p := x.terms.price;
    if |ls| == 0 || Better(s, p, ls[0].price) {
      NewLevelLaw(ls, s, x, log);
    } else if ls[0].price == p {
      assert log + [] == log;
      SameLevelLaw(ls[0], s, x, log);
      LadderLawCons(Level(p, Wrap(ls[0].volume + Visible(x)), ls[0].orders + [x]), ls[1..], s, log);
    } else {
      var log' := log + if HasLevel(ls[1..], s, p) then [] else [Opened(s, p)];
      AppendLaw(ls[1..], s, x, log);
      LowerBoundCons(ls, s, p);
      OtherLevelLaw(ls[0], s, p, log);
      assert log + [] == log;
      LadderLawCons(ls[0], Append(ls[1..], s, p, x, Visible(x)), s, log');
    }
  }

  lemma InsertLaw(b: Book, x: Ticket, log: seq<Action>)
    requires BookOk(b) && BookLaw(b, log)
    ensures BookLaw(Insert(b, x), log + Opening(b, x.terms.side, x.terms.price))
  {
    var s, p := x.terms.side, x.terms.price;
    var ls, other := Ladder(b, s), Ladder(b, s.Opposite());
    assert LadderOk(ls, s);
    AppendLaw(ls, s, x, log);
    if HasLevel(ls, s, p) {
      assert log + [] == log;
    } else {
      OtherSideSpares(Opened(s, p), other, s.Opposite());
      SparedLaw(other, s.Opposite(), log, Opened(s, p));
    }
  }

  // ---- Commands and sessions -------------------------------------------------------------

  lemma SettleLaw(c: Book, x: Ticket, log: seq<Action>)
    requires BookOk(c) && BookLaw(c, log)
    ensures BookLaw(Settle(c, x).0, log + Settle(c, x).2)
  {
    assert log + [] == log;
    if Settle(c, x).2 == [Withdrawn(x.id, x.remaining)] {
      QuietLaw(c, log, Withdrawn(x.id, x.remaining));
    } else if x.remaining > 0 {
      InsertLaw(c, x, log);
    }
  }

  lemma AddLaw(b: Book, r: Request, log: seq<Action>)
    requires BookOk(b) && BookLaw(b, log)
    ensures BookLaw(AddOrder(b, r).book, log + AddOrder(b, r).log)
  {
    hide LadderOk, LadderLaw, TicketsOk, Settle, AfterMatch, MatchLadder, Kills, PostOnlyBlocks;
    if !Accepts(b, r) {
      assert log + [] == log;
    } else {
      var c, x := AfterMatch(b, r), MatchOf(b, r).taker;
      var log1 := log + [Issued(Taker(b, r))] + Trades(MatchOf(b, r).fills);
      AfterMatchLaw(b, r, log);
      MatchKeeps(b, r);
      SettleLaw(c, x, log1);
      assert log + AddOrder(b, r).log == log1 + Settle(c, x).2;
    }
  }

  lemma CancelLaw(b: Book, client: ClientID, id: OrderID, log: seq<Action>)
    requires BookOk(b) && BookLaw(b, log)
    ensures BookLaw(CancelOrder(b, client, id).book, log + CancelOrder(b, client, id).log)
  {
    assert log + [] == log;
    if id in b.index {
      var x := Lookup(b, id);
      RemoveLaw(b, x, log);
      QuietLaw(Remove(b, x), log, Withdrawn(id, x.remaining));
    }
  }

  lemma ModifyLaw(b: Book, client: ClientID, id: OrderID, price: Price, quantity: Quantity, log: seq<Action>)
    requires BookOk(b) && BookLaw(b, log)
    ensures var o := ModifyOrder(b, client, id, price, quantity); BookLaw(o.book, log + o.log)
  {
    hide LadderOk, LadderLaw, TicketsOk, AddOrder, Shrink, Remove;
    assert log + [] == log;
    if id in b.index {
      var x := Lookup(b, id);
      if price != x.terms.price || quantity > x.remaining {
        CancelKeeps(b, client, id);
        CancelLaw(b, client, id, log);
        var c, r := CancelOrder(b, client, id), x.terms.(price := price, quantity := quantity);
        AddLaw(c.book, r, log + c.log);
        assert log + c.log + AddOrder(c.book, r).log == log + (c.log + AddOrder(c.book, r).log);
      } else if quantity < x.remaining {
        ShrinkLaw(b, x, quantity, log);
      }
    }
  }

  /** The exact law survives every command. */
  lemma ApplyLaw(b: Book, cmd: Command, log: seq<Action>)
    requires BookOk(b) && BookLaw(b, log)
    ensures BookLaw(Apply(b, cmd).book, log + Apply(b, cmd).log)
  {
    match cmd
    case NoCommand => assert log + [] == log;
    case Add(r) => AddLaw(b, r, log);
    case Cancel(client, id) => CancelLaw(b, client, id, log);
    case Modify(client, id, price, quantity) => ModifyLaw(b, client, id, price, quantity, log);
  }

  lemma {:induction false} RunLaw(st: State, cmds: seq<Command>)
    requires BookOk(st.book) && BookLaw(st.book, st.log)
    ensures BookOk(Run(st, cmds).book) && BookLaw(Run(st, cmds).book, Run(st, cmds).log)
    decreases |cmds|
  {
    if |cmds| == 0 {
    } else {
      ApplyKeeps(st.book, cmds[0]);
      ApplyLaw(st.book, cmds[0], st.log);
      RunLaw(Step(st, cmds[0]), cmds[1..]);
    }
  }

  lemma {:induction false} LawAt(ls: seq<Level<Ticket>>, s: Side, log: seq<Action>, i: nat)
    requires LadderLaw(ls, s, log) && i < |ls|
    ensures LevelLaw(ls[i], s, log)
    decreases i
  {
    if i == 0 {
    } else {
      LawAt(ls[1..], s, log, i - 1);
    }
  }

  /**
   The volume law of a session that starts from an empty book: at every level,
   volume = visible quantity + 2 * visible in-place reductions - hidden fills (mod 2^64).
   */
  lemma SessionVolumes(cmds: seq<Command>, s: Side, i: nat)
    requires i < |Ladder(Session(cmds).book, s)|
    ensures var l := Ladder(Session(cmds).book, s)[i];
            l.volume == Wrap(VisibleSum(l.orders) + Drift(Session(cmds).log, s, l.price))
  {
    StartOk();
    RunLaw(START, cmds);
    LawAt(Ladder(Session(cmds).book, s), s, Session(cmds).log, i);
  }
}
