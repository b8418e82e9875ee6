/**
 The fill-or-kill scan, decided exactly. Whatever the cached volumes are, an order is killed exactly
 when no run of crossing levels from the best price on has volumes that add up, modulo 2^64, to what
 it asks for. By the volume law these sums can be read off the orders and the history alone.
 */
module Scans {
  import opened Types
  import opened Ladders
  import opened Books
  import opened Matching
  import opened Commands
  import opened VolumeLaw

  function Volumes(ls: seq<Level<Ticket>>): nat {
    if |ls| == 0 then 0 else ls[0].volume + Volumes(ls[1..])
  }

  /** The first `k` levels cross, and with them the scan comes from `sum` to what the order asks for. */
  predicate PrefixReaches(ls: seq<Level<Ticket>>, r: Request, sum: Quantity, k: nat) {
    && 0 < k <= |ls| && Crosses(r.side, r.kind, r.price, ls[k - 1].price)
    && Wrap(sum + Volumes(ls[..k])) >= r.quantity
  }

  lemma PrefixCons(ls: seq<Level<Ticket>>, k: nat)
    requires 0 < k <= |ls|
    ensures ls[..k] == [ls[0]] + ls[1..][..k - 1]
    ensures Volumes(ls[..k]) == ls[0].volume + Volumes(ls[1..][..k - 1])
  {
    assert ls[..k][1..] == ls[1..][..k - 1];
  }

  /** Reaching with one level more is reaching from where the first level leaves the sum. */
  lemma ReachesNext(ls: seq<Level<Ticket>>, r: Request, sum: Quantity, k: nat)
    requires 1 < k <= |ls|
    ensures PrefixReaches(ls, r, sum, k) <==> PrefixReaches(ls[1..], r, Wrap(sum + ls[0].volume), k - 1)
  {
    PrefixCons(ls, k);
    WrapAbsorbs(sum + ls[0].volume, Volumes(ls[1..][..k - 1]));
  }

  lemma ReachesFirst(ls: seq<Level<Ticket>>, r: Request, sum: Quantity)
    requires |ls| > 0
    ensures PrefixReaches(ls, r, sum, 1)
        <==> Crosses(r.side, r.kind, r.price, ls[0].price) && Wrap(sum + ls[0].volume) >= r.quantity
  {
    PrefixCons(ls, 1);
    assert Volumes(ls[1..][..0]) == 0;
  }

  /** When the scan finds enough, it has found it in a run of crossing levels; this is how many. */
  lemma {:induction false} ScanFinds(ls: seq<Level<Ticket>>, r: Request, sum: Quantity) returns (k: nat)
    requires sum < r.quantity && Available(ls, r, sum) >= r.quantity
    ensures PrefixReaches(ls, r, sum, k)
    decreases |ls|
  {
    var next := Wrap(sum + ls[0].volume);
    if next >= r.quantity {
      ReachesFirst(ls, r, sum);
      k := 1;
    } else {
      k := ScanFinds(ls[1..], r, next);
      k := k + 1;
      ReachesNext(ls, r, sum, k);
    }
  }

  /** Where a run of crossing levels suffices, the scan finds enough. */
  lemma {:induction false} ScanMissesNothing(ls: seq<Level<Ticket>>, r: Request, sum: Quantity, k: nat)
    requires LadderOk(ls, r.side.Opposite()) && sum < r.quantity && PrefixReaches(ls, r, sum, k)
    ensures Available(ls, r, sum) >= r.quantity
    decreases k
  {
    LevelAt(ls, r.side.Opposite(), k - 1);
    if k == 1 {
      ReachesFirst(ls, r, sum);
    } else {
      var next := Wrap(sum + ls[0].volume);
      if next < r.quantity {
        ReachesNext(ls, r, sum, k);
        ScanMissesNothing(ls[1..], r, next, k - 1);
      }
    }
  }

  ghost predicate SomePrefixReaches(ls: seq<Level<Ticket>>, r: Request) {
    exists k: nat :: PrefixReaches(ls, r, 0, k)
  }

  /** The exact condition of a kill, for volumes of any kind. */
  lemma KillsIff(b: Book, r: Request)
    requires BookOk(b)
    ensures Kills(b, r) <==> r.tif == FOK && r.quantity > 0 && !SomePrefixReaches(Facing(b, r), r)
  {
    var ls := Facing(b, r);
    if r.quantity > 0 {
      if Available(ls, r, 0) >= r.quantity {
        var k := ScanFinds(ls, r, 0);
      } else if k: nat :| PrefixReaches(ls, r, 0, k) {
        assert LadderOk(ls, r.side.Opposite());
        ScanMissesNothing(ls, r, 0, k);
      }
    }
  }

  // ---- The same on sets of orders --------------------------------------------------------

  /** The visible quantity of a set of orders. */
  ghost function VisibleIn(ts: set<Ticket>): nat {
    if ts == {} then 0
    else
      var x :| x in ts;
      Visible(x) + VisibleIn(ts - {x})
  }

  function Prices(ts: set<Ticket>): set<Price> {
    set x | x in ts :: x.terms.price
  }

  /** The drift of all the levels at a set of prices. */
  ghost function DriftIn(log: seq<Action>, s: Side, ps: set<Price>): int {
    if !(exists p :: p in ps) then 0
    else
      var p :| p in ps;
      Drift(log, s, p) + DriftIn(log, s, ps - {p})
  }

  /** The orders at the price `p` and at better ones. */
  function UpTo(ts: set<Ticket>, s: Side, p: Price): set<Ticket> {
    set x | x in ts && !Better(s, p, x.terms.price)
  }

  /** What the levels from the best price to `p` have for volume, from orders and history alone. */
  ghost function Reach(ts: set<Ticket>, s: Side, log: seq<Action>, p: Price): Quantity {
    Wrap(VisibleIn(UpTo(ts, s, p)) + DriftIn(log, s, Prices(UpTo(ts, s, p))))
  }

  lemma {:induction false} VisiblePick(ts: set<Ticket>, x: Ticket)
    requires x in ts
    ensures VisibleIn(ts) == Visible(x) + VisibleIn(ts - {x})
    decreases |ts|
  {
    var y :| y in ts && VisibleIn(ts) == Visible(y) + VisibleIn(ts - {y});
    if y != x {
      VisiblePick(ts - {y}, x);
      VisiblePick(ts - {x}, y);
      assert ts - {y} - {x} == ts - {x} - {y};
    }
  }

  lemma {:induction false} DriftPick(log: seq<Action>, s: Side, ps: set<Price>, p: Price)
    requires p in ps
    ensures DriftIn(log, s, ps) == Drift(log, s, p) + DriftIn(log, s, ps - {p})
    decreases |ps|
  {
    var q :| q in ps && DriftIn(log, s, ps) == Drift(log, s, q) + DriftIn(log, s, ps - {q});
    if q != p {
      DriftPick(log, s, ps - {q}, p);
      DriftPick(log, s, ps - {p}, q);
      assert ps - {q} - {p} == ps - {p} - {q};
    }
  }

  /** Listed in order, a set's visible quantity is that of the list. */
  lemma {:induction false} VisibleListed(q: seq<Ticket>, s: Side)
    requires InOrder(q, s)
    ensures VisibleIn(AsSet(q)) == VisibleSum(q)
  {
    if |q| == 0 {
      assert AsSet(q) == {};
    } else {
      OrderedDistinct(q, s, 0);
      assert q == [q[0]] + q[1..] && q[0] in AsSet(q);
      assert AsSet(q) - {q[0]} == AsSet(q[1..]);
      VisiblePick(AsSet(q), q[0]);
      VisibleListed(q[1..], s);
    }
  }

  function Drifting(ls: seq<Level<Ticket>>, s: Side, log: seq<Action>): int {
    if |ls| == 0 then 0 else Drift(log, s, ls[0].price) + Drifting(ls[1..], s, log)
  }

  lemma {:induction false} SumJoin(a: seq<Ticket>, b: seq<Ticket>)
    ensures VisibleSum(a + b) == VisibleSum(a) + VisibleSum(b)
  {
    if |a| == 0 {
      assert a + b == b;
    } else {
      assert (a + b)[1..] == a[1..] + b;
      SumJoin(a[1..], b);
    }
  }

  lemma WrapBoth(v: Quantity, a: int, w: int, b: int)
    requires v == Wrap(a) && Wrap(w) == Wrap(b)
    ensures Wrap(v + w) == Wrap(a + b)
  {
    WrapAbsorbs(a, w);
    WrapAbsorbs(w, a);
    WrapAbsorbs(b, a);
  }

  lemma NothingVisible()
    ensures VisibleSum([]) == 0
  {
  }

  /** The volume law, summed over levels. */
  lemma {:induction false} VolumesByLaw(ls: seq<Level<Ticket>>, s: Side, log: seq<Action>)
    requires LadderLaw(ls, s, log)
    ensures Wrap(Volumes(ls)) == Wrap(VisibleSum(Queue(ls)) + Drifting(ls, s, log))
  {
    hide Wrap, VisibleSum, Drift;
    if |ls| == 0 {
      assert VisibleSum([]) == 0 by {
        NothingVisible();
      }
    } else {
      VolumesByLaw(ls[1..], s, log);
      SumJoin(ls[0].orders, Queue(ls[1..]));
      WrapBoth(ls[0].volume, VisibleSum(ls[0].orders) + Drift(log, s, ls[0].price),
               Volumes(ls[1..]), VisibleSum(Queue(ls[1..])) + Drifting(ls[1..], s, log));
    }
  }

  /** All prices behind a level are worse than its own. */
  lemma WorseBehind(l: Level<Ticket>, tail: seq<Level<Ticket>>, s: Side, y: Ticket)
    requires LadderOk([l] + tail, s) && y in Queue(tail)
    ensures Better(s, l.price, y.terms.price)
  {
    var ls := [l] + tail;
    assert ls[1..] == tail;
    Locate(tail, s, y);
    var i := LowerBound(tail, s, y.terms.price);
    assert ls[i + 1] == tail[i];
    LevelAt(ls, s, i + 1);
  }

  lemma PricesCons(l: Level<Ticket>, tail: seq<Level<Ticket>>, s: Side)
    requires LadderOk([l] + tail, s)
    ensures Prices(Elems([l] + tail)) == {l.price} + Prices(Elems(tail)) && l.price !in Prices(Elems(tail))
  {
    QueueCons(l, tail);
    var ts := Elems([l] + tail);
    assert [l][0] == l && ([l] + tail)[0] == l && LevelOk(l, s);
    forall x | x in l.orders ensures x.terms.price == l.price {
      TermsAt(l.orders, s, l.price, x);
    }
    forall y | y in Elems(tail) ensures y.terms.price != l.price {
      WorseBehind(l, tail, s, y);
    }
    assert l.orders[0] in l.orders && l.orders[0] in ts;
  }

  lemma {:induction false} DriftListed(ls: seq<Level<Ticket>>, s: Side, log: seq<Action>)
    requires LadderOk(ls, s)
    ensures DriftIn(log, s, Prices(Elems(ls))) == Drifting(ls, s, log)
  {
    if |ls| == 0 {
      assert Prices(Elems(ls)) == {};
    } else {
      var l, tail := ls[0], ls[1..];
      assert ls == [l] + tail;
      PricesCons(l, tail, s);
      DriftPick(log, s, Prices(Elems(ls)), l.price);
      assert Prices(Elems(ls)) - {l.price} == Prices(Elems(tail));
      DriftListed(tail, s, log);
    }
  }

  /** A run of levels from the best price on is in order, and follows the law when the ladder does. */
  lemma {:induction false} PrefixOk(ls: seq<Level<Ticket>>, s: Side, log: seq<Action>, k: nat)
    requires LadderOk(ls, s) && LadderLaw(ls, s, log) && k <= |ls|
    ensures LadderOk(ls[..k], s) && LadderLaw(ls[..k], s, log)
    decreases k
  {
    if k == 0 {
    } else {
      PrefixOk(ls[1..], s, log, k - 1);
      assert ls[..k][1..] == ls[1..][..k - 1];
    }
  }

  lemma UpToFirst(l: Level<Ticket>, tail: seq<Level<Ticket>>, s: Side)
    requires LadderOk([l] + tail, s)
    ensures UpTo(Elems([l] + tail), s, l.price) == AsSet(l.orders)
  {
    QueueCons(l, tail);
    assert ([l] + tail)[0] == l;
    forall x | x in l.orders ensures x.terms.price == l.price {
      TermsAt(l.orders, s, l.price, x);
    }
    forall y | y in Queue(tail) ensures Better(s, l.price, y.terms.price) {
      WorseBehind(l, tail, s, y);
    }
  }

  lemma UpToWorse(l: Level<Ticket>, tail: seq<Level<Ticket>>, s: Side, p: Price)
    requires LadderOk([l] + tail, s) && Better(s, l.price, p)
    ensures UpTo(Elems([l] + tail), s, p) == AsSet(l.orders) + UpTo(Elems(tail), s, p)
  {
    QueueCons(l, tail);
    assert ([l] + tail)[0] == l;
    forall x | x in l.orders ensures x.terms.price == l.price {
      TermsAt(l.orders, s, l.price, x);
    }
  }

  /** The orders of the first `k` levels are those up to the price of the last of these levels. */
  lemma {:induction false} PrefixIsUpTo(ls: seq<Level<Ticket>>, s: Side, k: nat)
    requires LadderOk(ls, s) && 0 < k <= |ls|
    ensures Elems(ls[..k]) == UpTo(Elems(ls), s, ls[k - 1].price)
    decreases k
  {
    hide UpTo, LevelOk;
    var l, tail, p := ls[0], ls[1..], ls[k - 1].price;
    assert ls == [l] + tail && ls[..k] == [l] + tail[..k - 1];
    QueueCons(l, tail[..k - 1]);
    if k == 1 {
      UpToFirst(l, tail, s);
      assert Queue(tail[..0]) == [] && l.orders + [] == l.orders;
    } else {
      LevelAt(ls, s, k - 1);
      PrefixIsUpTo(tail, s, k - 1);
      UpToWorse(l, tail, s, p);
      assert AsSet(l.orders + Queue(tail[..k - 1])) == AsSet(l.orders) + AsSet(Queue(tail[..k - 1]));
    }
  }

  /** The volumes of the first `k` levels, from orders and history alone. */
  lemma VolumesAreReach(ls: seq<Level<Ticket>>, s: Side, log: seq<Action>, k: nat)
    requires LadderOk(ls, s) && LadderLaw(ls, s, log) && 0 < k <= |ls|
    ensures Wrap(Volumes(ls[..k])) == Reach(Elems(ls), s, log, ls[k - 1].price)
  {
    var m := ls[..k];
    PrefixOk(ls, s, log, k);
    VolumesByLaw(m, s, log);
    PrefixIsUpTo(ls, s, k);
    QueueInOrder(m, s);
    VisibleListed(Queue(m), s);
    DriftListed(m, s, log);
  }

  /** Some crossing price is reached with enough, on a set of orders with a history. */
  ghost predicate SomePriceReaches(ts: set<Ticket>, log: seq<Action>, r: Request) {
    exists x {:trigger x in ts} :: x in ts
      && Crosses(r.side, r.kind, r.price, x.terms.price)
      && Reach(ts, r.side.Opposite(), log, x.terms.price) >= r.quantity
  }

  lemma LevelHasPrice(ls: seq<Level<Ticket>>, s: Side, i: nat)
    requires LadderOk(ls, s) && i < |ls|
    ensures |ls[i].orders| > 0 && ls[i].orders[0] in Elems(ls) && ls[i].orders[0].terms.price == ls[i].price
  {
    LevelAt(ls, s, i);
    LocateAt(ls, s, i, 0);
    QueueAt(ls, i, 0);
  }

  lemma LevelOfTicket(ls: seq<Level<Ticket>>, s: Side, x: Ticket)
    requires LadderOk(ls, s) && x in Elems(ls)
    ensures LowerBound(ls, s, x.terms.price) < |ls| && ls[LowerBound(ls, s, x.terms.price)].price == x.terms.price
  {
    Locate(ls, s, x);
  }

  lemma PrefixIffPrice(ls: seq<Level<Ticket>>, log: seq<Action>, r: Request)
    requires LadderOk(ls, r.side.Opposite()) && LadderLaw(ls, r.side.Opposite(), log)
    ensures SomePrefixReaches(ls, r) <==> SomePriceReaches(Elems(ls), log, r)
  {
    hide LadderOk, LadderLaw, Reach, Elems, Volumes;
    var s := r.side.Opposite();
    if k: nat :| PrefixReaches(ls, r, 0, k) {
      VolumesAreReach(ls, s, log, k);
      LevelHasPrice(ls, s, k - 1);
      assert ls[k - 1].orders[0] in Elems(ls);
    }
    if SomePriceReaches(Elems(ls), log, r) {
      var x :| x in Elems(ls) && Crosses(r.side, r.kind, r.price, x.terms.price)
               && Reach(Elems(ls), s, log, x.terms.price) >= r.quantity;
      LevelOfTicket(ls, s, x);
      var k := LowerBound(ls, s, x.terms.price) + 1;
      VolumesAreReach(ls, s, log, k);
      assert PrefixReaches(ls, r, 0, k);
    }
  }

  /** A kill is decided by the resting orders and the history, without levels and volumes. */
  lemma KillsByHistory(b: Book, log: seq<Action>, r: Request)
    requires BookOk(b) && BookLaw(b, log)
    ensures Kills(b, r)
        <==> r.tif == FOK && r.quantity > 0 && !SomePriceReaches(Elems(Facing(b, r)), log, r)
  {
    KillsIff(b, r);
    PrefixIffPrice(Facing(b, r), log, r);
  }
}
