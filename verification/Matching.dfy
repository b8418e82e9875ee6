/**
 Price-time priority matching, at three levels of abstraction that are shown to agree:
 `MatchLadder` follows the matcher on the price levels, `Sweep` runs down the price-time queue,
 and `Greedy` takes the best crossing order out of a plain set for as long as it can.
 */
module Matching {
  import opened Types
  import opened Ladders
  import opened Books

  predicate TicketCrosses(taker: Ticket, p: Price) {
    Crosses(taker.terms.side, taker.terms.kind, taker.terms.price, p)
  }

  /** Either party of a fill, once the quantity has been taken off it. */
  function AfterFill(x: Ticket, quantity: Quantity): Ticket
    requires quantity <= x.remaining
  {
    x.(remaining := x.remaining - quantity)
  }

  // ---- On the ladder ---------------------------------------------------------------------

  datatype Matched = Matched(ladder: seq<Level<Ticket>>, taker: Ticket, fills: seq<Fill>)

  /** The best order gives up `quantity`, and so does its level's volume; a filled order is removed. */
  function FillTop(ls: seq<Level<Ticket>>, quantity: Quantity): seq<Level<Ticket>>
    requires |ls| > 0 && |ls[0].orders| > 0 && quantity <= ls[0].orders[0].remaining
  {
    var l := ls[0];
    var x := AfterFill(l.orders[0], quantity);
    var volume := Wrap(l.volume - quantity);
    if x.remaining > 0 then [Level(l.price, volume, [x] + l.orders[1..])] + ls[1..]
    else if |l.orders| == 1 then ls[1..]
    else [Level(l.price, volume, l.orders[1..])] + ls[1..]
  }

  lemma CutHead<T>(a: seq<T>, b: seq<T>)
    requires |a| > 0
    ensures (a + b)[0] == a[0] && (a + b)[1..] == a[1..] + b
  {
  }

  lemma QueueCut(ls: seq<Level<Ticket>>)
    requires |ls| > 0 && |ls[0].orders| > 0
    ensures |Queue(ls)| > 0 && Queue(ls)[0] == ls[0].orders[0]
    ensures Queue(ls)[1..] == ls[0].orders[1..] + Queue(ls[1..])
  {
    CutHead(ls[0].orders, Queue(ls[1..]));
  }

  lemma PrependAssociates<T>(x: T, a: seq<T>, b: seq<T>)
    ensures ([x] + a) + b == [x] + (a + b)
  {
  }

  /** The rest of the level and of the ladder stays in the queue, and the best order while it has something left. */
  lemma FillTopQueue(ls: seq<Level<Ticket>>, quantity: Quantity)
    requires |ls| > 0 && |ls[0].orders| > 0 && quantity <= ls[0].orders[0].remaining
    ensures var x, rest := AfterFill(ls[0].orders[0], quantity), ls[0].orders[1..] + Queue(ls[1..]);
            Queue(FillTop(ls, quantity)) == if x.remaining > 0 then [x] + rest else rest
  {
    hide Wrap;
    var l, tail, rest := ls[0], ls[1..], ls[0].orders[1..];
    var x, volume := AfterFill(l.orders[0], quantity), Wrap(l.volume - quantity);
    if x.remaining > 0 {
      QueueCons(Level(l.price, volume, [x] + rest), tail);
      PrependAssociates(x, rest, Queue(tail));
    } else if |l.orders| == 1 {
      assert rest + Queue(tail) == Queue(tail);
    } else {
      QueueCons(Level(l.price, volume, rest), tail);
    }
  }

  lemma FillTopOk(ls: seq<Level<Ticket>>, s: Side, quantity: Quantity)
    requires LadderOk(ls, s) && |ls| > 0 && quantity <= ls[0].orders[0].remaining
    ensures LadderOk(FillTop(ls, quantity), s)
    ensures var x := ls[0].orders[0];
            && |Queue(ls)| > 0 && Queue(ls)[0] == x
            && Queue(FillTop(ls, quantity))
               == (if quantity == x.remaining then [] else [AfterFill(x, quantity)]) + Queue(ls)[1..]
  {
    hide Queue;
    var l := ls[0];
    var x := AfterFill(l.orders[0], quantity);
    QueueCut(ls);
    assert [] + Queue(ls)[1..] == Queue(ls)[1..];
    LevelReplace(l.orders, s, l.price, 0, x);
    assert l.orders[0 := x] == [x] + l.orders[1..];
    FillTopQueue(ls, quantity);
  }

  ghost function MatchLadder(ls: seq<Level<Ticket>>, taker: Ticket): Matched
    requires LadderOk(ls, taker.terms.side.Opposite())
    decreases |Queue(ls)|, taker.remaining
  {
    if taker.remaining == 0 || |ls| == 0 || !TicketCrosses(taker, ls[0].price) then Matched(ls, taker, [])
    else
      var f := Fill(taker, ls[0].orders[0], Min(taker.remaining, ls[0].orders[0].remaining));
      FillTopOk(ls, taker.terms.side.Opposite(), f.quantity);
      var m := MatchLadder(FillTop(ls, f.quantity), AfterFill(taker, f.quantity));
      Matched(m.ladder, m.taker, [f] + m.fills)
  }

  // ---- On the queue ----------------------------------------------------------------------

  datatype Swept = Swept(left: seq<Ticket>, taker: Ticket, fills: seq<Fill>)

  function Sweep(q: seq<Ticket>, taker: Ticket): Swept {
    if taker.remaining == 0 || |q| == 0 || !TicketCrosses(taker, q[0].terms.price) then Swept(q, taker, [])
    else
      var f := Fill(taker, q[0], Min(taker.remaining, q[0].remaining));
      var t := AfterFill(taker, f.quantity);
      if f.quantity == q[0].remaining then
        var r := Sweep(q[1..], t);
        Swept(r.left, r.taker, [f] + r.fills)
      else Swept([AfterFill(q[0], f.quantity)] + q[1..], t, [f])
  }

  /** The matcher on the levels sweeps the price-time queue. */
  lemma {:induction false} MatchIsSweep(ls: seq<Level<Ticket>>, taker: Ticket)
    requires LadderOk(ls, taker.terms.side.Opposite())
    ensures var m, r := MatchLadder(ls, taker), Sweep(Queue(ls), taker);
            && LadderOk(m.ladder, taker.terms.side.Opposite())
            && Queue(m.ladder) == r.left && m.taker == r.taker && m.fills == r.fills
    decreases |Queue(ls)|, taker.remaining
  {
    if taker.remaining > 0 && |ls| > 0 {
      var s := taker.terms.side.Opposite();
      var x := ls[0].orders[0];
      LocateAt(ls, s, 0, 0);
      if TicketCrosses(taker, ls[0].price) {
        var quantity := Min(taker.remaining, x.remaining);
        FillTopOk(ls, s, quantity);
        MatchIsSweep(FillTop(ls, quantity), AfterFill(taker, quantity));
        assert [] + Queue(ls)[1..] == Queue(ls)[1..];
      }
    }
  }

  // ---- On the set ------------------------------------------------------------------------

  ghost predicate IsBest(ts: set<Ticket>, s: Side, x: Ticket) {
    x in ts && forall y {:trigger y in ts} :: y in ts && y != x ==> Before(s, x, y)
  }

  datatype Consumed = Consumed(left: set<Ticket>, taker: Ticket, fills: seq<Fill>)

  ghost function GreedyLeft(ts: set<Ticket>, f: Fill): (left: set<Ticket>)
    requires f.maker in ts && f.quantity <= f.maker.remaining
    ensures |left| <= |ts| && (f.quantity == f.maker.remaining ==> |left| < |ts|)
  {
    assert |ts - {f.maker}| == |ts| - 1;
    if f.quantity == f.maker.remaining then ts - {f.maker}
    else ts - {f.maker} + {AfterFill(f.maker, f.quantity)}
  }

  /** Fill the best order of the set, as long as it crosses and quantity is left. */
  ghost function Greedy(ts: set<Ticket>, taker: Ticket): Consumed
    decreases |ts|, taker.remaining
  {
    if && taker.remaining > 0
       && exists x :: IsBest(ts, taker.terms.side.Opposite(), x) && TicketCrosses(taker, x.terms.price) then
      var x :| IsBest(ts, taker.terms.side.Opposite(), x) && TicketCrosses(taker, x.terms.price);
      var f := Fill(taker, x, Min(taker.remaining, x.remaining));
      var g := Greedy(GreedyLeft(ts, f), AfterFill(taker, f.quantity));
      Consumed(g.left, g.taker, [f] + g.fills)
    else Consumed(ts, taker, [])
  }

  lemma BestIsUnique(ts: set<Ticket>, s: Side, x: Ticket, y: Ticket)
    requires IsBest(ts, s, x) && IsBest(ts, s, y)
    ensures x == y
  {
  }

  lemma HeadIsBest(q: seq<Ticket>, s: Side)
    requires InOrder(q, s) && |q| > 0
    ensures forall x :: IsBest(AsSet(q), s, x) <==> x == q[0]
  {
    forall y | y in AsSet(q) && y != q[0] ensures Before(s, q[0], y) {
      assert q == [q[0]] + q[1..];
      HeadIsFirst(q, s, y);
    }
    assert q[0] in AsSet(q);
    forall x | IsBest(AsSet(q), s, x) ensures x == q[0] {
      BestIsUnique(AsSet(q), s, x, q[0]);
    }
  }

  lemma SetAfterFill(q: seq<Ticket>, s: Side, f: Fill)
    requires InOrder(q, s) && |q| > 0 && f.maker == q[0] && f.quantity <= q[0].remaining
    ensures GreedyLeft(AsSet(q), f)
         == AsSet(if f.quantity == q[0].remaining then q[1..] else [AfterFill(q[0], f.quantity)] + q[1..])
  {
    WithoutOne(q, s, 0, AfterFill(q[0], f.quantity));
    assert q[..0] + q[1..] == q[1..];
    assert q[0 := AfterFill(q[0], f.quantity)] == [AfterFill(q[0], f.quantity)] + q[1..];
  }

  lemma GreedyStops(ts: set<Ticket>, taker: Ticket)
    requires taker.remaining == 0
    ensures Greedy(ts, taker) == Consumed(ts, taker, [])
  {
  }

  /** Sweeping the ordered queue is greedy consumption of its set. */
  lemma {:induction false} SweepIsGreedy(q: seq<Ticket>, taker: Ticket)
    requires InOrder(q, taker.terms.side.Opposite())
    ensures var r := Sweep(q, taker);
            Greedy(AsSet(q), taker) == Consumed(AsSet(r.left), r.taker, r.fills)
  {
    var s := taker.terms.side.Opposite();
    if taker.remaining > 0 && |q| > 0 {
      HeadIsBest(q, s);
      assert IsBest(AsSet(q), s, q[0]);
      if TicketCrosses(taker, q[0].terms.price) {
        var f := Fill(taker, q[0], Min(taker.remaining, q[0].remaining));
        SetAfterFill(q, s, f);
        if f.quantity == q[0].remaining {
          SweepIsGreedy(q[1..], AfterFill(taker, f.quantity));
        } else {
          GreedyStops(GreedyLeft(AsSet(q), f), AfterFill(taker, f.quantity));
        }
      }
    }
  }

  /** The matcher, read on flat sets: best price first, then lowest id, for as long as it can. */
  lemma MatchIsGreedy(ls: seq<Level<Ticket>>, taker: Ticket)
    requires LadderOk(ls, taker.terms.side.Opposite())
    ensures var m := MatchLadder(ls, taker);
            Greedy(Elems(ls), taker) == Consumed(Elems(m.ladder), m.taker, m.fills)
  {
    QueueInOrder(ls, taker.terms.side.Opposite());
    MatchIsSweep(ls, taker);
    SweepIsGreedy(Queue(ls), taker);
  }

  // ---- The closed form -------------------------------------------------------------------

  function Volume(fills: seq<Fill>): nat {
    if |fills| == 0 then 0 else fills[0].quantity + Volume(fills[1..])
  }

  function Total(orders: seq<Ticket>): nat {
    if |orders| == 0 then 0 else orders[0].remaining + Total(orders[1..])
  }

  /** All the quantity in `q` that `taker` may trade against. */
  function Liquidity(q: seq<Ticket>, taker: Ticket): nat {
    if |q| == 0 then 0
    else (if TicketCrosses(taker, q[0].terms.price) then q[0].remaining else 0) + Liquidity(q[1..], taker)
  }

  /** What is left of the last maker touched, when it was not filled. */
  function Leftover(fills: seq<Fill>): seq<Ticket> {
    if |fills| == 0 then []
    else
      var f := fills[|fills| - 1];
      if f.quantity < f.maker.remaining then [AfterFill(f.maker, f.quantity)] else []
  }

  /**
   The makers touched are a prefix of the queue `q`. All but the last are filled and gone, and
   everything behind the prefix is as it was.
   */
  ghost predicate TakesPrefix(q: seq<Ticket>, taker: Ticket, fills: seq<Fill>, left: seq<Ticket>) {
    var n := |fills|;
    && n <= |q|
    && (forall i :: 0 <= i < n ==> fills[i].maker == q[i] && TicketCrosses(taker, q[i].terms.price))
    && (forall i :: 0 <= i < n ==> fills[i].quantity <= q[i].remaining)
    && (forall i :: 0 <= i < n - 1 ==> fills[i].quantity == q[i].remaining)
    && left == Leftover(fills) + q[n..]
  }

  lemma PrefixStep(q: seq<Ticket>, taker: Ticket, f: Fill, t: Ticket, fills: seq<Fill>, left: seq<Ticket>)
    requires |q| > 0 && f.maker == q[0] && TicketCrosses(taker, q[0].terms.price)
    requires f.quantity == f.maker.remaining && t == taker.(remaining := t.remaining)
    requires TakesPrefix(q[1..], t, fills, left)
    ensures TakesPrefix(q, taker, [f] + fills, left)
  {
    var all, n := [f] + fills, |fills|;
    forall i | 0 <= i < n + 1
      ensures all[i].maker == q[i] && TicketCrosses(taker, q[i].terms.price)
      ensures all[i].quantity <= q[i].remaining && (i < n ==> all[i].quantity == q[i].remaining)
    {
      if i > 0 {
        assert all[i] == fills[i - 1] && q[i] == q[1..][i - 1];
      }
    }
    assert q[1..][n..] == q[n + 1..];
    assert n > 0 ==> all[n] == fills[n - 1];
  }

  lemma {:induction false} SweepTakesPrefix(q: seq<Ticket>, taker: Ticket)
    ensures var r := Sweep(q, taker); TakesPrefix(q, taker, r.fills, r.left)
  {
    if taker.remaining == 0 || |q| == 0 || !TicketCrosses(taker, q[0].terms.price) {
      assert [] + q == q;
    } else {
      var f := Fill(taker, q[0], Min(taker.remaining, q[0].remaining));
      var t := AfterFill(taker, f.quantity);
      if f.quantity == q[0].remaining {
        SweepTakesPrefix(q[1..], t);
        PrefixStep(q, taker, f, t, Sweep(q[1..], t).fills, Sweep(q[1..], t).left);
      }
    }
  }

  /** When the best price does not cross, no price does. */
  lemma {:induction false} NothingCrosses(q: seq<Ticket>, taker: Ticket)
    requires InOrder(q, taker.terms.side.Opposite())
    requires |q| > 0 ==> !TicketCrosses(taker, q[0].terms.price)
    ensures Liquidity(q, taker) == 0
    ensures forall y: Ticket {:trigger y in q} :: y in q ==> !TicketCrosses(taker, y.terms.price)
  {
    if |q| == 0 {
    } else {
      NothingCrosses(q[1..], taker);
      assert q == [q[0]] + q[1..];
    }
  }

  lemma {:induction false} SameLiquidity(q: seq<Ticket>, x: Ticket, y: Ticket)
    requires x.terms == y.terms
    ensures Liquidity(q, x) == Liquidity(q, y)
  {
    if |q| == 0 {
    } else {
      SameLiquidity(q[1..], x, y);
    }
  }

  /** The quantity filled is the smaller of what was asked and what was there to take. */
  lemma {:induction false} SweepFillsMin(q: seq<Ticket>, taker: Ticket)
    requires InOrder(q, taker.terms.side.Opposite())
    ensures var r, all := Sweep(q, taker), Liquidity(q, taker);
            && r.taker.remaining <= taker.remaining && r.taker == taker.(remaining := r.taker.remaining)
            && Volume(r.fills) == taker.remaining - r.taker.remaining
            && Volume(r.fills) == if taker.remaining <= all then taker.remaining else all
  {
    if |q| > 0 && !TicketCrosses(taker, q[0].terms.price) {
      NothingCrosses(q, taker);
    } else if taker.remaining > 0 && |q| > 0 {
      var f := Fill(taker, q[0], Min(taker.remaining, q[0].remaining));
      var t := AfterFill(taker, f.quantity);
      if f.quantity == q[0].remaining {
        SweepFillsMin(q[1..], t);
        assert Sweep(q, taker).fills[1..] == Sweep(q[1..], t).fills;
        SameLiquidity(q[1..], taker, t);
      } else {
        assert Volume([f]) == f.quantity;
      }
    }
  }

  /** The `n`-th order of the queue crosses, and those in front of it do not suffice for the taker. */
  predicate Reaches(q: seq<Ticket>, taker: Ticket, n: nat)
    requires n > 0
  {
    n <= |q| && TicketCrosses(taker, q[n - 1].terms.price) && Total(q[..n - 1]) < taker.remaining
  }

  /** How many fills a sweep makes, read off the queue before it. */
  lemma {:induction false} SweepReaches(q: seq<Ticket>, taker: Ticket, n: nat)
    requires InOrder(q, taker.terms.side.Opposite()) && n > 0
    ensures |Sweep(q, taker).fills| >= n <==> Reaches(q, taker, n)
    decreases n
  {
    if |q| == 0 || taker.remaining == 0 {
    } else if !TicketCrosses(taker, q[0].terms.price) {
      NothingCrosses(q, taker);
      assert n <= |q| ==> q[n - 1] in q;
    } else if n == 1 {
      assert Total(q[..0]) == 0;
    } else {
      var t := AfterFill(taker, Min(taker.remaining, q[0].remaining));
      if n <= |q| {
        assert q[..n - 1][1..] == q[1..][..n - 2];
      }
      SweepReaches(q[1..], t, n - 1);
    }
  }

  /** After a match, a taker with quantity left faces no order it could trade with. */
  lemma {:induction false} SweepExhausts(q: seq<Ticket>, taker: Ticket)
    requires InOrder(q, taker.terms.side.Opposite())
    ensures var r := Sweep(q, taker);
            && InOrder(r.left, taker.terms.side.Opposite())
            && (r.taker.remaining > 0 ==>
                  forall y: Ticket {:trigger y in r.left} :: y in r.left ==> !TicketCrosses(taker, y.terms.price))
  {
    var s := taker.terms.side.Opposite();
    if taker.remaining == 0 || |q| == 0 {
    } else if !TicketCrosses(taker, q[0].terms.price) {
      NothingCrosses(q, taker);
    } else {
      var quantity := Min(taker.remaining, q[0].remaining);
      if quantity == q[0].remaining {
        SweepExhausts(q[1..], AfterFill(taker, quantity));
      } else {
        var x := AfterFill(q[0], quantity);
        assert ([x] + q[1..])[1..] == q[1..];
        assert |q| > 1 ==> Before(s, x, q[1]);
      }
    }
  }
}
