/**
 The life of an order on the book: its terms never change, its quantity never grows, once gone it
 never returns, nobody but a taker or its owner touches it, and while it rests no order behind it
 is filled.
 */
module Lifetimes {
  import opened Types
  import opened Ladders
  import opened Books
  import opened Matching
  import opened Commands

  /** The command asks, with the owner's client id, to modify or cancel `x`. */
  predicate ByOwner(cmd: Command, x: Ticket) {
    || (cmd.Modify? && cmd.id == x.id && cmd.client == x.terms.client)
    || (cmd.Cancel? && cmd.id == x.id && cmd.client == x.terms.client)
  }

  predicate FilledBy(fills: seq<Fill>, id: OrderID) {
    |fills| > 0 && (fills[0].maker.id == id || FilledBy(fills[1..], id))
  }

  lemma {:induction false} FilledByAt(fills: seq<Fill>, id: OrderID)
    ensures FilledBy(fills, id) <==> exists i :: 0 <= i < |fills| && fills[i].maker.id == id
  {
    if |fills| == 0 {
    } else {
      FilledByAt(fills[1..], id);
      if i :| 0 < i < |fills| && fills[i].maker.id == id {
        assert fills[1..][i - 1].maker.id == id;
      }
      if i :| 0 <= i < |fills| - 1 && fills[1..][i].maker.id == id {
        assert fills[i + 1].maker.id == id;
      }
    }
  }

  lemma {:induction false} FilledByMember(fills: seq<Fill>, i: nat)
    requires i < |fills|
    ensures FilledBy(fills, fills[i].maker.id)
    decreases i
  {
    if i == 0 {
    } else {
      FilledByMember(fills[1..], i - 1);
    }
  }

  // ---- Terms, quantity, no return --------------------------------------------------------

  /** Every old ticket of `c` was in `b`, with the same terms and at least as much quantity. */
  ghost predicate Ages(b: Book, c: Book) {
    forall y {:trigger y in Tickets(c)} :: y in Tickets(c) && y.id < b.nextId ==> ComesFrom(y, Tickets(b))
  }

  lemma AgesTransitively(a: Book, b: Book, c: Book)
    requires Ages(a, b) && Ages(b, c) && a.nextId <= b.nextId
    ensures Ages(a, c)
  {
    forall y | y in Tickets(c) && y.id < a.nextId ensures ComesFrom(y, Tickets(a)) {
      assert ComesFrom(y, Tickets(b));
      var z :| z in Tickets(b) && z.id == y.id && z.terms == y.terms && y.remaining <= z.remaining;
      assert ComesFrom(z, Tickets(a));
    }
  }

  lemma ComesFromLarger(x: Ticket, ts: set<Ticket>, us: set<Ticket>)
    requires ComesFrom(x, ts) && ts <= us
    ensures ComesFrom(x, us)
  {
    var y :| y in ts && y.id == x.id && y.terms == x.terms && x.remaining <= y.remaining;
    assert y in us;
  }

  lemma AgesItself(b: Book)
    ensures Ages(b, b)
  {
    forall y | y in Tickets(b) ensures ComesFrom(y, Tickets(b)) {
    }
  }

  lemma ComesFromItself(x: Ticket, ts: set<Ticket>)
    requires x in ts
    ensures ComesFrom(x, ts)
  {
  }

  lemma MatchAges(b: Book, r: Request)
    requires BookOk(b)
    ensures Ages(b, AfterMatch(b, r))
  {
    hide LadderOk, TicketsOk, MatchLadder, ComesFrom, Elems, FilledIds;
    var c, s := AfterMatch(b, r), r.side.Opposite();
    MatchKeeps(b, r);
    AgesItself(b);
    assert Tickets(b) == Elems(Ladder(b, r.side)) + Elems(Ladder(b, s));
    assert Tickets(c) == Elems(Ladder(b, r.side)) + Elems(MatchOf(b, r).ladder);
    forall y | y in Tickets(c) ensures ComesFrom(y, Tickets(b)) {
      if y in Elems(MatchOf(b, r).ladder) {
        ComesFromLarger(y, Elems(Ladder(b, s)), Tickets(b));
      } else {
        ComesFromItself(y, Tickets(b));
      }
    }
  }

  lemma SettledAges(b: Book, r: Request)
    requires BookOk(b) && r.matching == Standard
    ensures Ages(b, Settled(b, r))
  {
    hide LadderOk, Settled, AfterMatch, ComesFrom, TicketsOk, MatchLadder, Elems, Thinned;
    MatchAges(b, r);
    SettledKeeps(b, r);
    TakerTerms(b, r);
    var c, d := AfterMatch(b, r), Settled(b, r);
    forall y | y in Tickets(d) && y.id < b.nextId ensures ComesFrom(y, Tickets(b)) {
      assert y in Tickets(c);
    }
  }

  lemma AddAges(b: Book, r: Request)
    requires BookOk(b)
    ensures Ages(b, AddOrder(b, r).book)
  {
    AddSettles(b, r);
    if Accepts(b, r) {
      SettledAges(b, r);
    } else {
      AgesItself(b);
    }
  }

  lemma RemoveAges(b: Book, x: Ticket)
    requires BookOk(b) && x in Tickets(b)
    ensures Ages(b, Remove(b, x))
  {
    RemoveKeeps(b, x);
    AgesItself(b);
  }

  lemma ShrinkAges(b: Book, x: Ticket, quantity: Quantity)
    requires BookOk(b) && x in Tickets(b) && quantity <= x.remaining
    ensures Ages(b, Shrink(b, x, quantity))
  {
    ShrinkKeeps(b, x, quantity);
    forall y | y in Tickets(Shrink(b, x, quantity)) ensures ComesFrom(y, Tickets(b)) {
      assert y == x.(remaining := quantity) || y in Tickets(b);
      assert x in Tickets(b);
    }
  }

  lemma ApplyAges(b: Book, cmd: Command)
    requires BookOk(b)
    ensures Ages(b, Apply(b, cmd).book)
  {
    hide LadderOk, Ages, AddOrder, Remove, Shrink, TicketsOk;
    AgesItself(b);
    match cmd
    case NoCommand =>
    case Add(r) => AddAges(b, r);
    case Cancel(client, id) =>
      if id in b.index {
        RemoveAges(b, Lookup(b, id));
      }
    case Modify(client, id, price, quantity) =>
      if id in b.index {
        var x := Lookup(b, id);
        if price != x.terms.price || quantity > x.remaining {
          CancelKeeps(b, client, id);
          RemoveAges(b, x);
          var r := x.terms.(price := price, quantity := quantity);
          AddAges(CancelOrder(b, client, id).book, r);
          AgesTransitively(b, CancelOrder(b, client, id).book, AddOrder(CancelOrder(b, client, id).book, r).book);
        } else if quantity < x.remaining {
          ShrinkAges(b, x, quantity);
        }
      }
  }

  lemma {:induction false} RunAges(st: State, cmds: seq<Command>)
    requires BookOk(st.book)
    ensures Ages(st.book, Run(st, cmds).book)
    decreases |cmds|
  {
    if |cmds| == 0 {
      AgesItself(st.book);
    } else {
      var mid := Step(st, cmds[0]);
      ApplyKeeps(st.book, cmds[0]);
      ApplyAges(st.book, cmds[0]);
      RunAges(mid, cmds[1..]);
      AgesTransitively(st.book, mid.book, Run(st, cmds).book);
    }
  }

  lemma StillThere(b: Book, y: Ticket)
    requires BookOk(b) && ComesFrom(y, Tickets(b))
    ensures y.id in b.index && Lookup(b, y.id).terms == y.terms && y.remaining <= Lookup(b, y.id).remaining
  {
    var z :| z in Tickets(b) && z.id == y.id && z.terms == y.terms && y.remaining <= z.remaining;
    assert z.id in Ids(Tickets(b));
    UniqueIds(b, z, Lookup(b, y.id));
  }

  /**
   Over any commands: an id that has been issued and rests at the end rested at the start, on the
   same terms and with at least the same quantity. So quantity never grows and nothing comes back.
   */
  lemma OrdersOnlyAge(st: State, cmds: seq<Command>, id: OrderID)
    requires BookOk(st.book) && id < st.book.nextId
    ensures var e := Run(st, cmds).book;
            && BookOk(e)
            && (id in e.index ==>
                  && id in st.book.index
                  && Lookup(e, id).terms == Lookup(st.book, id).terms
                  && Lookup(e, id).remaining <= Lookup(st.book, id).remaining)
  {
    RunKeeps(st, cmds);
    RunAges(st, cmds);
    var e := Run(st, cmds).book;
    if id in e.index {
      assert ComesFrom(Lookup(e, id), Tickets(st.book));
      StillThere(st.book, Lookup(e, id));
    }
  }

  // ---- Nobody else touches an order ------------------------------------------------------

  lemma SweepUntouched(q: seq<Ticket>, taker: Ticket, x: Ticket)
    requires x in q && !FilledBy(Sweep(q, taker).fills, x.id)
    ensures x in Sweep(q, taker).left
  {
    hide Sweep, Leftover, FilledBy;
    var r := Sweep(q, taker);
    SweepTakesPrefix(q, taker);
    var k :| 0 <= k < |q| && q[k] == x;
    if k < |r.fills| {
      FilledByMember(r.fills, k);
      assert false;
    }
    assert q[|r.fills|..][k - |r.fills|] == x;
  }

  lemma AddUntouched(b: Book, r: Request, x: Ticket)
    requires BookOk(b) && x in Tickets(b) && !FilledBy(AddOrder(b, r).fills, x.id)
    ensures x in Tickets(AddOrder(b, r).book)
  {
    AddSettles(b, r);
    if Accepts(b, r) {
      MatchKeeps(b, r);
      SettledKeeps(b, r);
      TwoSides(b, x);
      if x.terms.side != r.side {
        var ls := Facing(b, r);
        assert LadderOk(ls, r.side.Opposite()) && x in Elems(ls);
        MatchIsSweep(ls, Taker(b, r));
        SweepUntouched(Queue(ls), Taker(b, r), x);
        assert x in Elems(MatchOf(b, r).ladder);
      } else {
        assert x in Elems(Ladder(AfterMatch(b, r), r.side));
      }
    }
  }

  /** An order that no fill names and whose owner does not act on it stays exactly as it is. */
  lemma OnlyFillsAndOwners(b: Book, cmd: Command, x: Ticket)
    requires BookOk(b) && x in Tickets(b)
    requires !ByOwner(cmd, x) && !FilledBy(Apply(b, cmd).fills, x.id)
    ensures x in Tickets(Apply(b, cmd).book)
  {
    match cmd
    case NoCommand =>
    case Add(r) => AddUntouched(b, r, x);
    case Cancel(client, id) =>
      if id in b.index && Lookup(b, id).terms.client == client {
        RemoveKeeps(b, Lookup(b, id));
      }
    case Modify(client, id, price, quantity) =>
      if id in b.index && Lookup(b, id).terms.client == client {
        var y := Lookup(b, id);
        if price != y.terms.price || quantity > y.remaining {
          CancelKeeps(b, client, id);
          RemoveKeeps(b, y);
          AddUntouched(Remove(b, y), y.terms.(price := price, quantity := quantity), x);
        } else if quantity < y.remaining {
          ShrinkKeeps(b, y, quantity);
        }
      }
  }

  // ---- Time priority ---------------------------------------------------------------------

  lemma {:induction false} FilledIdsHas(fills: seq<Fill>, i: nat)
    requires i < |fills| && fills[i].quantity == fills[i].maker.remaining
    ensures fills[i].maker.id in FilledIds(fills)
    decreases i
  {
    if i == 0 {
    } else {
      FilledIdsHas(fills[1..], i - 1);
    }
  }

  /** When a sweep reaches `y`, everything in front of `y` has been filled. */
  lemma SweepInTurn(q: seq<Ticket>, taker: Ticket, x: Ticket, y: Ticket)
    requires InOrder(q, taker.terms.side.Opposite()) && x in q && y in q
    requires Before(taker.terms.side.Opposite(), x, y)
    requires exists i :: 0 <= i < |Sweep(q, taker).fills| && Sweep(q, taker).fills[i].maker == y
    ensures x.id in FilledIds(Sweep(q, taker).fills)
  {
    var s, fills := taker.terms.side.Opposite(), Sweep(q, taker).fills;
    SweepTakesPrefix(q, taker);
    var i :| 0 <= i < |fills| && fills[i].maker == y;
    var h :| 0 <= h < |q| && q[h] == x;
    if h >= i {
      if h > i {
        OrderedBefore(q, s, i, h);
      }
      assert false;
    } else {
      FilledIdsHas(fills, h);
    }
  }

  /** The maker of a fill is the ticket of the book with that id. */
  lemma MakerIs(b: Book, r: Request, i: nat, y: Ticket)
    requires BookOk(b) && y in Tickets(b) && i < |MatchOf(b, r).fills| && MatchOf(b, r).fills[i].maker.id == y.id
    ensures MatchOf(b, r).fills[i].maker == y && y.terms.side == r.side.Opposite()
  {
    var ls, t := Facing(b, r), Taker(b, r);
    assert LadderOk(ls, r.side.Opposite());
    MatchIsSweep(ls, t);
    SweepTakesPrefix(Queue(ls), t);
    var x := MatchOf(b, r).fills[i].maker;
    assert x == Queue(ls)[i] && x in Elems(ls);
    Locate(ls, r.side.Opposite(), x);
    UniqueIds(b, x, y);
  }

  lemma AddInTurn(b: Book, r: Request, x: Ticket, y: Ticket)
    requires BookOk(b) && x in Tickets(b) && y in Tickets(b)
    requires x.terms.side == y.terms.side && Before(x.terms.side, x, y)
    requires FilledBy(AddOrder(b, r).fills, y.id)
    ensures x.id !in AddOrder(b, r).book.index
  {
    AddSettles(b, r);
    MatchKeeps(b, r);
    SettledKeeps(b, r);
    var ls, t, fills := Facing(b, r), Taker(b, r), MatchOf(b, r).fills;
    var s, q := r.side.Opposite(), Queue(ls);
    assert LadderOk(ls, s);
    QueueInOrder(ls, s);
    MatchIsSweep(ls, t);
    SweepTakesPrefix(q, t);
    FilledByAt(fills, y.id);
    var i :| 0 <= i < |fills| && fills[i].maker.id == y.id;
    MakerIs(b, r, i, y);
    TwoSides(b, x);
    TwoSides(b, y);
    SweepInTurn(q, t, x, y);
    assert x.id < b.nextId;
  }

  lemma NoSuchMaker(b: Book, r: Request, id: OrderID)
    requires BookOk(b) && id !in b.index
    ensures !FilledBy(AddOrder(b, r).fills, id)
  {
    hide AfterMatch, Settled, Sweep, Leftover, LevelOk, Insert;
    AddSettles(b, r);
    var ls, t, fills := Facing(b, r), Taker(b, r), MatchOf(b, r).fills;
    assert LadderOk(ls, r.side.Opposite());
    MatchIsSweep(ls, t);
    SweepTakesPrefix(Queue(ls), t);
    FilledByAt(fills, id);
    forall i | 0 <= i < |fills| ensures fills[i].maker.id != id {
      assert fills[i].maker in Elems(ls);
      assert fills[i].maker.id in Ids(Tickets(b));
    }
  }

  lemma GoneStays(b: Book, x: Ticket, c: Book, r: Request)
    requires BookOk(b) && x in Tickets(b) && c == Remove(b, x) && BookOk(c)
    requires Ages(c, AddOrder(c, r).book)
    ensures x.id !in AddOrder(c, r).book.index
  {
    RemoveKeeps(b, x);
    AddKeeps(c, r);
    var d := AddOrder(c, r).book;
    if x.id in d.index {
      assert x.id < c.nextId;
      assert ComesFrom(Lookup(d, x.id), Tickets(c));
      StillThere(c, Lookup(d, x.id));
      assert false;
    }
  }

  /** In one command, a fill of `y` means that every order in front of `y` has left the book. */
  lemma ApplyInTurn(b: Book, cmd: Command, x: Ticket, y: Ticket)
    requires BookOk(b) && x in Tickets(b) && y in Tickets(b)
    requires x.terms.side == y.terms.side && Before(x.terms.side, x, y)
    requires FilledBy(Apply(b, cmd).fills, y.id)
    ensures x.id !in Apply(b, cmd).book.index
  {
    hide LadderOk, AddOrder, Remove, TicketsOk;
    match cmd
    case NoCommand =>
    case Add(r) => AddInTurn(b, r, x, y);
    case Cancel(client, id) =>
    case Modify(client, id, price, quantity) =>
      var z := Lookup(b, id);
      var c, r := Remove(b, z), z.terms.(price := price, quantity := quantity);
      RemoveKeeps(b, z);
      if z == x {
        AddAges(c, r);
        GoneStays(b, x, c, r);
      } else if z == y {
        NoSuchMaker(c, r, y.id);
      } else {
        AddInTurn(c, r, x, y);
      }
  }

  // ---- Time priority over a session ------------------------------------------------------

  predicate FilledIn(log: seq<Action>, id: OrderID) {
    FilledBy(FillsOf(log), id)
  }

  lemma {:induction false} FilledByJoin(a: seq<Fill>, b: seq<Fill>, id: OrderID)
    ensures FilledBy(a + b, id) <==> FilledBy(a, id) || FilledBy(b, id)
  {
    if |a| == 0 {
      assert a + b == b;
    } else {
      assert (a + b)[1..] == a[1..] + b;
      FilledByJoin(a[1..], b, id);
    }
  }

  lemma FilledInSplit(a: seq<Action>, b: seq<Action>, id: OrderID)
    ensures FilledIn(a + b, id) <==> FilledIn(a, id) || FilledIn(b, id)
  {
    FillsOfJoin(a, b);
    FilledByJoin(FillsOf(a), FillsOf(b), id);
  }

  lemma RunUnfolds(b: Book, log: seq<Action>, cmds: seq<Command>)
    requires BookOk(b) && |cmds| > 0
    ensures var o := Apply(b, cmds[0]);
            BookOk(o.book) && Run(State(b, log), cmds) == Run(State(o.book, log + o.log), cmds[1..])
  {
    ApplyKeeps(b, cmds[0]);
  }

  lemma Regroup(x: seq<Action>, y: seq<Action>, z: seq<Action>)
    ensures x + y + z == x + ([] + y + z)
  {
  }

  /** The history of a run is its starting history followed by what the commands add. */
  lemma {:induction false} LogShift(b: Book, log: seq<Action>, cmds: seq<Command>)
    requires BookOk(b)
    ensures var e := Run(State(b, []), cmds);
            Run(State(b, log), cmds) == State(e.book, log + e.log)
    decreases |cmds|
  {
    if |cmds| == 0 {
      assert log + [] == log;
    } else {
      RunUnfolds(b, log, cmds);
      RunUnfolds(b, [], cmds);
      var c, added := Apply(b, cmds[0]).book, Apply(b, cmds[0]).log;
      LogShift(c, log + added, cmds[1..]);
      LogShift(c, [] + added, cmds[1..]);
      Regroup(log, added, Run(State(c, []), cmds[1..]).log);
    }
  }

  lemma RunCons(b: Book, cmds: seq<Command>)
    requires BookOk(b) && |cmds| > 0
    ensures BookOk(Apply(b, cmds[0]).book)
    ensures var o := Apply(b, cmds[0]);
            var e := Run(State(o.book, []), cmds[1..]);
            Run(State(b, []), cmds) == State(e.book, o.log + e.log)
  {
    RunUnfolds(b, [], cmds);
    var o := Apply(b, cmds[0]);
    LogShift(o.book, [] + o.log, cmds[1..]);
    assert [] + o.log == o.log;
  }

  lemma NotFilledUnlessThere(b: Book, cmd: Command, id: OrderID)
    requires BookOk(b) && id !in b.index
    ensures !FilledBy(Apply(b, cmd).fills, id)
  {
    match cmd
    case NoCommand =>
    case Add(r) => NoSuchMaker(b, r, id);
    case Cancel(client, n) =>
    case Modify(client, n, price, quantity) =>
      if n in b.index {
        var x := Lookup(b, n);
        if price != x.terms.price || quantity > x.remaining {
          CancelKeeps(b, client, n);
          RemoveKeeps(b, x);
          NoSuchMaker(Remove(b, x), x.terms.(price := price, quantity := quantity), id);
        }
      }
  }

  /** An id that is gone is never filled again. */
  lemma {:induction false} GoneIsGone(b: Book, cmds: seq<Command>, id: OrderID)
    requires BookOk(b) && id < b.nextId && id !in b.index
    ensures !FilledIn(Run(State(b, []), cmds).log, id)
    decreases |cmds|
  {
    if |cmds| == 0 {
    } else {
      var o := Apply(b, cmds[0]);
      ApplyKeeps(b, cmds[0]);
      ApplyAges(b, cmds[0]);
      if id in o.book.index {
        StillThere(b, Lookup(o.book, id));
        assert false;
      }
      NotFilledUnlessThere(b, cmds[0], id);
      LogFills(b, cmds[0]);
      GoneIsGone(o.book, cmds[1..], id);
      RunCons(b, cmds);
      FilledInSplit(o.log, Run(State(o.book, []), cmds[1..]).log, id);
    }
  }

  lemma OrdersOnlyAgeStep(b: Book, cmd: Command, x: Ticket)
    requires BookOk(b) && BookOk(Apply(b, cmd).book) && x in Tickets(b) && x.id in Apply(b, cmd).book.index
    ensures var z := Lookup(Apply(b, cmd).book, x.id); z.terms == x.terms && z.id == x.id
  {
    ApplyAges(b, cmd);
    var z := Lookup(Apply(b, cmd).book, x.id);
    assert ComesFrom(z, Tickets(b));
    StillThere(b, z);
    UniqueIds(b, x, Lookup(b, x.id));
  }

  lemma StillRests(st: State, cmds: seq<Command>, id: OrderID, b: Book)
    requires BookOk(st.book) && BookOk(b) && id in b.index && b.nextId <= st.book.nextId
    requires id in Run(st, cmds).book.index
    ensures id in st.book.index
  {
    assert id in Ids(Tickets(b));
    OrdersOnlyAge(st, cmds, id);
  }

  /**
   Price-time priority over any further commands: if `x` is in front of `y` and still rests at the
   end, then `y` has received no fill in between.
   */
  lemma {:induction false} PriorityHolds(b: Book, cmds: seq<Command>, x: Ticket, y: Ticket)
    requires BookOk(b) && x in Tickets(b) && y in Tickets(b)
    requires x.terms.side == y.terms.side && Before(x.terms.side, x, y)
    ensures x.id in Run(State(b, []), cmds).book.index ==> !FilledIn(Run(State(b, []), cmds).log, y.id)
    decreases |cmds|
  {
    var e := Run(State(b, []), cmds);
    if |cmds| > 0 && x.id in e.book.index {
      var o := Apply(b, cmds[0]);
      ApplyKeeps(b, cmds[0]);
      RunCons(b, cmds);
      StillRests(State(o.book, []), cmds[1..], x.id, b);
      LogFills(b, cmds[0]);
      if FilledBy(o.fills, y.id) {
        ApplyInTurn(b, cmds[0], x, y);
        assert false;
      }
      FilledInSplit(o.log, Run(State(o.book, []), cmds[1..]).log, y.id);
      OrdersOnlyAgeStep(b, cmds[0], x);
      if y.id in o.book.index {
        OrdersOnlyAgeStep(b, cmds[0], y);
        PriorityHolds(o.book, cmds[1..], Lookup(o.book, x.id), Lookup(o.book, y.id));
      } else {
        assert y.id < b.nextId;
        GoneIsGone(o.book, cmds[1..], y.id);
      }
    }
  }

  /** The queue of the ladder has `x` at an earlier position than `y`. */
  ghost predicate InFront(ls: seq<Level<Ticket>>, x: Ticket, y: Ticket) {
    exists i, j :: 0 <= i < j < |Queue(ls)| && Queue(ls)[i] == x && Queue(ls)[j] == y
  }

  lemma OrderShowsInQueue(b: Book, s: Side, x: Ticket, y: Ticket)
    requires BookOk(b) && x in Tickets(b) && y in Tickets(b)
    requires x.terms.side == s && y.terms.side == s && Before(s, x, y)
    ensures InFront(Ladder(b, s), x, y)
  {
    SidesOk(b);
    var q := Queue(Ladder(b, s));
    QueueInOrder(Ladder(b, s), s);
    assert x in Elems(Ladder(b, s)) && y in Elems(Ladder(b, s));
    var i :| 0 <= i < |q| && q[i] == x;
    var j :| 0 <= j < |q| && q[j] == y;
    if j < i {
      OrderedBefore(q, s, j, i);
      assert false;
    }
  }

  lemma IdsBelow(b: Book, x: Ticket)
    requires BookOk(b) && x in Tickets(b)
    ensures x.id < b.nextId && x.id in b.index
  {
  }

  lemma KeepsTerms(b: Book, cmds: seq<Command>, x: Ticket)
    requires BookOk(b) && x in Tickets(b)
    ensures var e := Run(State(b, []), cmds).book;
            BookOk(e) && (x.id in e.index ==> Lookup(e, x.id).terms == x.terms)
  {
    IdsBelow(b, x);
    OrdersOnlyAge(State(b, []), cmds, x.id);
    UniqueIds(b, x, Lookup(b, x.id));
  }

  /** Of two orders on a side, the one in front stays in front for as long as both rest. */
  lemma StaysInFront(b: Book, cmds: seq<Command>, x: Ticket, y: Ticket)
    requires BookOk(b) && x in Tickets(b) && y in Tickets(b)
    requires x.terms.side == y.terms.side && Before(x.terms.side, x, y)
    ensures var e := Run(State(b, []), cmds).book;
            && BookOk(e)
            && (x.id in e.index && y.id in e.index ==>
                  Before(x.terms.side, Lookup(e, x.id), Lookup(e, y.id))
                  && InFront(Ladder(e, x.terms.side), Lookup(e, x.id), Lookup(e, y.id)))
  {
    hide LadderOk, Run, TicketsOk;
    RunKeeps(State(b, []), cmds);
    var e := Run(State(b, []), cmds).book;
    if x.id in e.index && y.id in e.index {
      KeepsTerms(b, cmds, x);
      KeepsTerms(b, cmds, y);
      OrderShowsInQueue(e, x.terms.side, Lookup(e, x.id), Lookup(e, y.id));
    }
  }
}
