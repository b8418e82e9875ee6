/**
 One side of the book: price levels, best price first, each a FIFO list with a cached volume.
 A sequence sorted by price stands for the ordered map from prices to levels. The element type is
 a parameter: the book itself holds order objects, its specification holds their values.
 */
module Ladders {
  import opened Types

  datatype Level<T> = Level(price: Price, volume: Quantity, orders: seq<T>)

  /** The position of the first level whose price is not better than `p`. */
  function LowerBound<T>(ls: seq<Level<T>>, s: Side, p: Price): (k: nat)
    ensures k <= |ls|
    ensures forall i :: 0 <= i < k ==> Better(s, ls[i].price, p)
    ensures k < |ls| ==> !Better(s, ls[k].price, p)
  {
    if |ls| == 0 || !Better(s, ls[0].price, p) then 0
    else
      var k := LowerBound(ls[1..], s, p);
      assert forall i :: 1 <= i < k + 1 ==> ls[i] == ls[1..][i - 1];
      k + 1
  }

  predicate HasLevel<T>(ls: seq<Level<T>>, s: Side, p: Price) {
    var k := LowerBound(ls, s, p);
    k < |ls| && ls[k].price == p
  }

  function IndexOf<T(==)>(xs: seq<T>, x: T): (k: nat)
    requires x in xs
    ensures k < |xs| && xs[k] == x && x !in xs[..k]
  {
    if xs[0] == x then 0
    else
      var k := IndexOf(xs[1..], x);
      assert xs[..k + 1] == [xs[0]] + xs[1..][..k];
      k + 1
  }

  /** Takes order `j` out of level `i`, and the level out of the ladder if that leaves it empty. */
  function EraseAt<T>(ls: seq<Level<T>>, i: nat, j: nat, volume: Quantity): seq<Level<T>>
    requires i < |ls| && j < |ls[i].orders|
  {
    if i > 0 then [ls[0]] + EraseAt(ls[1..], i - 1, j, volume)
    else
      var rest := ls[0].orders[..j] + ls[0].orders[j + 1..];
      if |rest| == 0 then ls[1..] else [Level(ls[0].price, volume, rest)] + ls[1..]
  }

  /** Puts `x` in place of order `j` of level `i`. */
  function UpdateAt<T>(ls: seq<Level<T>>, i: nat, j: nat, x: T, volume: Quantity): seq<Level<T>>
    requires i < |ls| && j < |ls[i].orders|
  {
    if i > 0 then [ls[0]] + UpdateAt(ls[1..], i - 1, j, x, volume)
    else [Level(ls[0].price, volume, ls[0].orders[j := x])] + ls[1..]
  }

  /** Appends `x` to the level at `p`, creating that level in its sorted place when it is missing. */
  function Append<T>(ls: seq<Level<T>>, s: Side, p: Price, x: T, extra: Quantity): seq<Level<T>> {
    if |ls| == 0 || Better(s, p, ls[0].price) then [Level(p, extra, [x])] + ls
    else if ls[0].price == p then [Level(p, Wrap(ls[0].volume + extra), ls[0].orders + [x])] + ls[1..]
    else [ls[0]] + Append(ls[1..], s, p, x, extra)
  }

  /** All orders of a ladder in the order in which they are matched. */
  function Queue<T>(ls: seq<Level<T>>): seq<T> {
    if |ls| == 0 then [] else ls[0].orders + Queue(ls[1..])
  }

  /** How many orders stand in front of level `i`. */
  function Offset<T>(ls: seq<Level<T>>, i: nat): (k: nat)
    requires i <= |ls|
    ensures k <= |Queue(ls)| && (i < |ls| ==> k + |ls[i].orders| <= |Queue(ls)|)
  {
    if i == 0 then 0 else |ls[0].orders| + Offset(ls[1..], i - 1)
  }

  /** How many orders stand at the price `p` or in front of it. */
  function BackOf<T>(ls: seq<Level<T>>, s: Side, p: Price): (k: nat)
    ensures k <= |Queue(ls)|
  {
    if |ls| == 0 || Better(s, p, ls[0].price) then 0
    else |ls[0].orders| + if ls[0].price == p then 0 else BackOf(ls[1..], s, p)
  }

  // ---- The three edits, seen on the queue ------------------------------------------------

  lemma QueueCons<T>(l: Level<T>, ls: seq<Level<T>>)
    ensures Queue([l] + ls) == l.orders + Queue(ls)
  {
    assert ([l] + ls)[1..] == ls;
  }

  // Cutting a concatenation in its first or its second part.

  lemma CutFirst<T>(a: seq<T>, b: seq<T>, j: nat, x: T)
    requires j < |a|
    ensures (a + b)[j] == a[j]
    ensures (a + b)[..j] + (a + b)[j + 1..] == a[..j] + a[j + 1..] + b
    ensures (a + b)[j := x] == a[j := x] + b
  {
  }

  lemma CutSecond<T>(a: seq<T>, b: seq<T>, k: nat, x: T)
    requires k < |b|
    ensures (a + b)[|a| + k] == b[k]
    ensures (a + b)[..|a| + k] + (a + b)[|a| + k + 1..] == a + (b[..k] + b[k + 1..])
    ensures (a + b)[|a| + k := x] == a + b[k := x]
  {
  }

  lemma PutSecond<T>(a: seq<T>, b: seq<T>, k: nat, x: T)
    requires k <= |b|
    ensures (a + b)[..|a| + k] + [x] + (a + b)[|a| + k..] == a + (b[..k] + [x] + b[k..])
  {
  }

  lemma {:induction false} QueueAt<T>(ls: seq<Level<T>>, i: nat, j: nat)
    requires i < |ls| && j < |ls[i].orders|
    ensures Queue(ls)[Offset(ls, i) + j] == ls[i].orders[j]
    decreases i
  {
    var a, b := ls[0].orders, Queue(ls[1..]);
    if i == 0 {
      CutFirst(a, b, j, a[j]);
    } else {
      QueueAt(ls[1..], i - 1, j);
      CutSecond(a, b, Offset(ls[1..], i - 1) + j, ls[i].orders[j]);
    }
  }

  lemma EraseHeadQueue<T>(l: Level<T>, tail: seq<Level<T>>, j: nat, volume: Quantity)
    requires j < |l.orders|
    ensures var q := l.orders + Queue(tail);
            Queue(EraseAt([l] + tail, 0, j, volume)) == q[..j] + q[j + 1..]
  {
    var rest := l.orders[..j] + l.orders[j + 1..];
    assert ([l] + tail)[1..] == tail;
    QueueCons(Level(l.price, volume, rest), tail);
    CutFirst(l.orders, Queue(tail), j, l.orders[j]);
    assert |rest| == 0 ==> rest + Queue(tail) == Queue(tail);
  }

  /** Erasing takes out exactly one position. */
  lemma {:induction false} EraseQueue<T>(ls: seq<Level<T>>, i: nat, j: nat, volume: Quantity)
    requires i < |ls| && j < |ls[i].orders|
    ensures var q, k := Queue(ls), Offset(ls, i) + j;
            Queue(EraseAt(ls, i, j, volume)) == q[..k] + q[k + 1..]
    decreases i
  {
    if i == 0 {
      assert ls == [ls[0]] + ls[1..];
      EraseHeadQueue(ls[0], ls[1..], j, volume);
    } else {
      var tail := ls[1..];
      var a, b, k := ls[0].orders, Queue(tail), Offset(tail, i - 1) + j;
      assert tail[i - 1] == ls[i] && Offset(ls, i) + j == |a| + k;
      EraseQueue(tail, i - 1, j, volume);
      QueueCons(ls[0], EraseAt(tail, i - 1, j, volume));
      CutSecond(a, b, k, ls[i].orders[j]);
    }
  }

  /** Updating changes exactly one position. */
  lemma {:induction false} UpdateQueue<T>(ls: seq<Level<T>>, i: nat, j: nat, x: T, volume: Quantity)
    requires i < |ls| && j < |ls[i].orders|
    ensures Queue(UpdateAt(ls, i, j, x, volume)) == Queue(ls)[Offset(ls, i) + j := x]
    decreases i
  {
    var l, tail := ls[0], ls[1..];
    if i == 0 {
      QueueCons(Level(l.price, volume, l.orders[j := x]), tail);
      CutFirst(l.orders, Queue(tail), j, x);
    } else {
      UpdateQueue(tail, i - 1, j, x, volume);
      QueueCons(l, UpdateAt(tail, i - 1, j, x, volume));
      CutSecond(l.orders, Queue(tail), Offset(tail, i - 1) + j, x);
    }
  }

  /** Appending inserts behind all orders of its price and of better ones. */
  lemma {:induction false} AppendQueue<T>(ls: seq<Level<T>>, s: Side, p: Price, x: T, extra: Quantity)
    ensures var q, k := Queue(ls), BackOf(ls, s, p);
            Queue(Append(ls, s, p, x, extra)) == q[..k] + [x] + q[k..]
  {
    if |ls| == 0 || Better(s, p, ls[0].price) {
      QueueCons(Level(p, extra, [x]), ls);
    } else if ls[0].price == p {
      QueueCons(Level(p, Wrap(ls[0].volume + extra), ls[0].orders + [x]), ls[1..]);
      PutSecond(ls[0].orders, Queue(ls[1..]), 0, x);
    } else {
      AppendQueue(ls[1..], s, p, x, extra);
      QueueCons(ls[0], Append(ls[1..], s, p, x, extra));
      PutSecond(ls[0].orders, Queue(ls[1..]), BackOf(ls[1..], s, p), x);
    }
  }
}
