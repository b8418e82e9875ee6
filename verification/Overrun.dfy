/**
 A command with 128 fills or more loses its answer. Here are sessions in which it happens, and some in
 which it just does not: `n` one-lot offers, and then one order that takes them all.
 */
module Overrun {
  import opened Types
  import opened Ladders
  import opened Books
  import opened Matching
  import opened Commands
  import opened Events

  const OFFER := Request(1, 100, 1, Sell, Limit, GTC, Standard, Flags(false, false, false))

  /** `n` one-lot offers on the ask side, and nothing on the bid side. */
  ghost predicate Stacked(b: Book, n: nat) {
    && b.bids == [] && |Queue(b.asks)| == n
    && forall y: Ticket {:trigger y in Queue(b.asks)} :: y in Queue(b.asks) ==> y.remaining == 1 && y.terms == OFFER
  }

  lemma StackOneMore(b: Book, n: nat)
    requires BookOk(b) && Stacked(b, n)
    ensures Stacked(AddOrder(b, OFFER).book, n + 1)
  {
    var x := Taker(b, OFFER);
    assert MatchOf(b, OFFER) == Matched([], x, []);
    AppendQueue(b.asks, Sell, 100, x, 1);
    var q, k := Queue(b.asks), BackOf(b.asks, Sell, 100);
    var after := q[..k] + [x] + q[k..];
    assert AddOrder(b, OFFER).book.asks == Append(b.asks, Sell, 100, x, 1);
    forall y: Ticket | y in after ensures y.remaining == 1 && y.terms == OFFER {
      assert y == x || y in q;
    }
  }

  function Offers(n: nat): seq<Command> {
    if n == 0 then [] else [Add(OFFER)] + Offers(n - 1)
  }

  lemma {:induction false} StackMany(st: State, k: nat, n: nat)
    requires BookOk(st.book) && Stacked(st.book, k)
    ensures Stacked(Run(st, Offers(n)).book, k + n)
    decreases n
  {
    hide LadderOk, AddOrder, Stacked, TicketsOk, BookOk;
    if n == 0 {
    } else {
      ApplyKeeps(st.book, Add(OFFER));
      StackOneMore(st.book, k);
      StackMany(Step(st, Add(OFFER)), k + 1, n - 1);
      assert Offers(n)[1..] == Offers(n - 1);
    }
  }

  /** An order for `n` lots. */
  function TakeAll(n: Quantity): Request {
    Request(2, 100, n, Buy, Limit, GTC, Standard, Flags(false, false, false))
  }

  /** One-lot offers are filled one by one. */
  lemma {:induction false} OneFillEach(q: seq<Ticket>, taker: Ticket, n: Quantity)
    requires taker.terms == TakeAll(n) && taker.remaining <= |q|
    requires forall y: Ticket {:trigger y in q} :: y in q ==> y.remaining == 1 && y.terms == OFFER
    ensures |Sweep(q, taker).fills| == taker.remaining
    decreases |q|
  {
    if taker.remaining == 0 {
    } else {
      assert q[0] in q;
      forall y: Ticket | y in q[1..] ensures y.remaining == 1 && y.terms == OFFER {
        assert y in q;
      }
      OneFillEach(q[1..], AfterFill(taker, 1), n);
    }
  }

  lemma TakesAll(b: Book, n: Quantity)
    requires BookOk(b) && Stacked(b, n)
    ensures |AddOrder(b, TakeAll(n)).fills| == n
  {
    MatchIsSweep(b.asks, Taker(b, TakeAll(n)));
    OneFillEach(Queue(b.asks), Taker(b, TakeAll(n)), n);
    AddSettles(b, TakeAll(n));
  }

  lemma StartStacked()
    ensures Stacked(START.book, 0)
  {
  }

  /** After `n` one-lot offers, an order that takes them all loses its answer exactly when there are 128 or more. */
  lemma AnswerLost(n: Quantity)
    ensures var b := Session(Offers(n)).book;
            && |AddOrder(b, TakeAll(n)).fills| == n
            && (TooMany(b, Add(TakeAll(n))) <==> n >= 128)
            && (Emit(b, Add(TakeAll(n)), 1).overrun <==> n >= 128)
  {
    hide LadderOk, TicketsOk, Emit, TooMany, AddOrder, Stacked, Run;
    StartOk();
    StartStacked();
    StackMany(START, 0, n);
    var b := Session(Offers(n)).book;
    TakesAll(b, n);
    CommandTooMany(b, Add(TakeAll(n)));
    EmitOverrun(b, Add(TakeAll(n)), 1);
  }
}
