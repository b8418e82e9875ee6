/**
 The lock-free queue between one producer and one consumer. Both threads are program counters that
 take one step at a time, in any interleaving. Of the other thread's index a thread sees any value
 from the index's modification order that is not older than the one it saw last, so a load may be
 stale. Indices are kept as the code keeps them, wrapped by a bit mask; counters appear in proofs only.
 */
module SpscQueue {

  // ---- The bit mask ----------------------------------------------------------------------

  function BitAnd(x: nat, y: nat): nat {
    if x == 0 || y == 0 then 0
    else 2 * BitAnd(x / 2, y / 2) + if x % 2 == 1 && y % 2 == 1 then 1 else 0
  }

  /** The capacities that the queue admits. */
  predicate PowerOfTwo(size: nat) {
    size > 0 && BitAnd(size, size - 1) == 0
  }

  lemma {:induction false} AndSelf(x: nat)
    ensures BitAnd(x, x) == x
  {
    if x == 0 {
    } else {
      AndSelf(x / 2);
    }
  }

  /** The index of the slot that the `k`-th item goes to. */
  function Slot(k: nat, size: nat): (i: nat)
    requires size > 0
    ensures i < size
  {
    if k < size then k else Slot(k - size, size)
  }

  lemma {:induction false} HalfSlot(x: nat, h: nat)
    requires h > 0
    ensures Slot(x, 2 * h) == 2 * Slot(x / 2, h) + x % 2
  {
    if x >= 2 * h {
      HalfSlot(x - 2 * h, h);
      assert (x - 2 * h) / 2 == x / 2 - h;
    }
  }

  lemma PowerHalves(size: nat)
    requires PowerOfTwo(size) && size > 1
    ensures size % 2 == 0 && PowerOfTwo(size / 2)
  {
    if size % 2 == 1 {
      AndSelf(size / 2);
      assert false;
    }
    assert (size - 1) / 2 == size / 2 - 1;
  }

  lemma MaskHalves(x: nat, h: nat)
    requires h > 0
    ensures BitAnd(x, 2 * h - 1) == 2 * BitAnd(x / 2, h - 1) + x % 2
  {
    assert (2 * h - 1) / 2 == h - 1 && (2 * h - 1) % 2 == 1;
  }

  lemma {:induction false} SlotOfOne(x: nat)
    ensures Slot(x, 1) == 0
  {
    if x == 0 {
    } else {
      SlotOfOne(x - 1);
    }
  }

  lemma MaskOfOne(x: nat)
    ensures BitAnd(x, 0) == 0
  {
  }

  /** For a capacity that is a power of two, masking an index wraps it. */
  lemma {:induction false} MaskIsSlot(size: nat, x: nat)
    requires size > 0 && PowerOfTwo(size)
    ensures BitAnd(x, size - 1) == Slot(x, size)
    decreases size
  {
    hide BitAnd, PowerOfTwo;
    if size > 1 {
      var h := size / 2;
      PowerHalves(size);
      MaskIsSlot(h, x / 2);
      MaskHalves(x, h);
      HalfSlot(x, h);
    } else {
      MaskOfOne(x);
      SlotOfOne(x);
    }
  }

  lemma {:induction false} AtLeastOnce(k: nat, n: nat)
    ensures (k + 1) * n >= n
  {
    if k == 0 {
    } else {
      AtLeastOnce(k - 1, n);
    }
  }

  lemma Multiple(d: int, n: nat)
    ensures d * n >= n || d == 0 || d * n + n <= 0
  {
    if d > 0 {
      AtLeastOnce(d - 1, n);
    } else if d < 0 {
      AtLeastOnce(-d - 1, n);
      assert (-d) * n == 0 - d * n;
    }
  }

  lemma RemainderBack(k: nat, n: nat)
    requires n > 0 && k >= n
    ensures k % n == (k - n) % n
  {
    var q, r := (k - n) / n, (k - n) % n;
    var d := k / n - (q + 1);
    assert k == (k / n) * n + k % n;
    assert k == (q + 1) * n + r;
    assert d * n == r - k % n;
    Multiple(d, n);
  }

  /** Wrapping is the remainder of the division by the capacity. */
  lemma {:induction false} SlotIsRemainder(k: nat, size: nat)
    requires size > 0
    ensures Slot(k, size) == k % size
  {
    if k >= size {
      SlotIsRemainder(k - size, size);
      RemainderBack(k, size);
    }
  }

  /** Within one lap, two counters share an index only when they are equal or a full lap apart. */
  lemma {:induction false} SameIndex(a: nat, b: nat, n: nat)
    requires n > 0 && a <= b <= a + n
    ensures Slot(a, n) == Slot(b, n) <==> b == a || b == a + n
    decreases a
  {
    if a >= n {
      SameIndex(a - n, b - n, n);
    } else if b >= n {
      assert Slot(b, n) == Slot(b - n, n) == b - n || b == 2 * n;
    }
  }

  lemma {:induction false} NextIndex(a: nat, n: nat)
    requires n > 0
    ensures Slot(Slot(a, n) + 1, n) == Slot(a + 1, n)
  {
    if a >= n {
      NextIndex(a - n, n);
    }
  }

  // ---- The two threads -------------------------------------------------------------------

  datatype Producer<T> =
    | Idle
    | Loading(value: T, next: nat)    // full as far as the cached tail tells; about to load the tail
    | Writing(value: T, next: nat)    // about to write the slot
    | Publishing(value: T, next: nat) // about to store the new head

  datatype Consumer<T> =
    | Resting
    | Looking                         // empty as far as the cached head tells; about to load the head
    | Reading                         // about to read the slot
    | Freeing(value: T)               // about to store the new tail

  /**
   `heads` and `tails` are all values the two indices have had, in order. The caches hold what a
   thread loaded last, and `seenTail` and `seenHead` where in those orders it was.
   */
  datatype Queue<T> = Queue(
    buffer: seq<T>, heads: seq<nat>, tails: seq<nat>,
    tailCache: nat, headCache: nat, seenTail: nat, seenHead: nat,
    producer: Producer<T>, consumer: Consumer<T>,
    pushed: seq<T>, popped: seq<T>)

  datatype Step<T> =
    | PushCall(value: T)
    | PushLoad(at: nat)
    | PushWrite
    | PushStore
    | PopCall
    | PopLoad(at: nat)
    | PopRead
    | PopStore

  function Tail<T>(q: Queue<T>): nat
    requires |q.tails| > 0
  {
    q.tails[|q.tails| - 1]
  }

  function Head<T>(q: Queue<T>): nat
    requires |q.heads| > 0
  {
    q.heads[|q.heads| - 1]
  }

  predicate Shape<T>(q: Queue<T>, size: nat) {
    && |q.buffer| == size && |q.heads| > 0 && |q.tails| > 0
    && Head(q) < size && Tail(q) < size
  }

  predicate Enabled<T>(q: Queue<T>, e: Step<T>) {
    match e
    case PushCall(_) => q.producer.Idle?
    case PushLoad(at) => q.producer.Loading? && q.seenTail <= at < |q.tails|
    case PushWrite => q.producer.Writing?
    case PushStore => q.producer.Publishing?
    case PopCall => q.consumer.Resting?
    case PopLoad(at) => q.consumer.Looking? && q.seenHead <= at < |q.heads|
    case PopRead => q.consumer.Reading?
    case PopStore => q.consumer.Freeing?
  }

  /** One step of the code; a failed push or pop goes straight back to the idle state. */
  function Take<T>(q: Queue<T>, e: Step<T>, size: nat): Queue<T>
    requires size > 0 && Shape(q, size) && Enabled(q, e)
  {
    match e
    case PushCall(value) =>
      var next := BitAnd(Head(q) + 1, size - 1);
      q.(producer := if next == q.tailCache then Loading(value, next) else Writing(value, next))
    case PushLoad(at) =>
      q.(tailCache := q.tails[at], seenTail := at,
         producer := if q.producer.next == q.tails[at] then Idle else Writing(q.producer.value, q.producer.next))
    case PushWrite =>
      q.(buffer := q.buffer[Head(q) := q.producer.value], producer := Publishing(q.producer.value, q.producer.next))
    case PushStore =>
      q.(heads := q.heads + [q.producer.next], pushed := q.pushed + [q.producer.value], producer := Idle)
    case PopCall =>
      q.(consumer := if Tail(q) == q.headCache then Looking else Reading)
    case PopLoad(at) =>
      q.(headCache := q.heads[at], seenHead := at, consumer := if Tail(q) == q.heads[at] then Resting else Reading)
    case PopRead =>
      q.(consumer := Freeing(q.buffer[Tail(q)]))
    case PopStore =>
      q.(tails := q.tails + [BitAnd(Tail(q) + 1, size - 1)], popped := q.popped + [q.consumer.value],
         consumer := Resting)
  }

  // ---- What every step keeps -------------------------------------------------------------

  predicate Wrapped(order: seq<nat>, size: nat)
    requires size > 0
  {
    forall i {:trigger order[i]} :: 0 <= i < |order| ==> order[i] == Slot(i, size)
  }

  /** tailCache <= tail <= headCache <= head <= tailCache + size - 1, on the unbounded counters. */
  predicate Ordered<T>(q: Queue<T>, size: nat) {
    q.seenTail < |q.tails| <= q.seenHead + 1 <= |q.heads| <= q.seenTail + size
  }

  predicate IndicesOk<T>(q: Queue<T>, size: nat)
    requires size > 0
  {
    && Ordered(q, size)
    && Wrapped(q.heads, size) && Wrapped(q.tails, size)
    && q.tailCache == Slot(q.seenTail, size) && q.headCache == Slot(q.seenHead, size)
  }

  /** Everything pushed and not yet popped is in its slot. */
  ghost predicate SlotsOk<T>(q: Queue<T>, size: nat)
    requires size > 0 && |q.buffer| == size
  {
    && |q.pushed| == |q.heads| - 1 && |q.popped| == |q.tails| - 1
    && q.popped <= q.pushed
    && forall k {:trigger q.pushed[k]} :: |q.popped| <= k < |q.pushed| ==> q.buffer[Slot(k, size)] == q.pushed[k]
  }

  ghost predicate ThreadsOk<T>(q: Queue<T>, size: nat)
    requires size > 0 && |q.buffer| == size && |q.heads| > 0 && |q.tails| > 0
  {
    && (!q.producer.Idle? ==> q.producer.next == Slot(|q.heads|, size))
    && (q.producer.Writing? || q.producer.Publishing? ==> |q.heads| < q.seenTail + size)
    && (q.producer.Publishing? ==> q.buffer[Slot(|q.heads| - 1, size)] == q.producer.value)
    && (q.consumer.Reading? || q.consumer.Freeing? ==> |q.tails| <= q.seenHead)
    && (q.consumer.Freeing? ==> |q.tails| <= |q.pushed| && q.consumer.value == q.pushed[|q.tails| - 1])
  }

  ghost predicate Inv<T>(q: Queue<T>, size: nat) {
    && PowerOfTwo(size) && |q.buffer| == size && |q.heads| > 0 && |q.tails| > 0
    && IndicesOk(q, size) && SlotsOk(q, size) && ThreadsOk(q, size)
  }

  function Fresh<T>(buffer: seq<T>): Queue<T> {
    Queue(buffer, [0], [0], 0, 0, 0, 0, Idle, Resting, [], [])
  }

  lemma FreshOk<T>(buffer: seq<T>)
    requires PowerOfTwo(|buffer|)
    ensures Inv(Fresh(buffer), |buffer|)
  {
  }

  lemma Bounded<T>(q: Queue<T>, size: nat)
    requires size > 0 && |q.heads| > 0 && |q.tails| > 0 && |q.buffer| == size && IndicesOk(q, size)
    ensures Shape(q, size)
    ensures Head(q) == Slot(|q.heads| - 1, size) && Tail(q) == Slot(|q.tails| - 1, size)
  {
  }

  /** Masked, the index that follows the head is that of the next item. */
  lemma NextHead<T>(q: Queue<T>, size: nat)
    requires Inv(q, size) && Shape(q, size)
    ensures BitAnd(Head(q) + 1, size - 1) == Slot(|q.heads|, size)
  {
    Bounded(q, size);
    MaskIsSlot(size, Head(q) + 1);
    NextIndex(|q.heads| - 1, size);
  }

  lemma PushCallKeeps<T>(q: Queue<T>, value: T, size: nat)
    requires Inv(q, size) && Shape(q, size) && Enabled(q, PushCall(value))
    ensures Inv(Take(q, PushCall(value), size), size)
  {
    hide Wrapped, Slot, PowerOfTwo, BitAnd;
    NextHead(q, size);
    SameIndex(q.seenTail, |q.heads|, size);
  }

  lemma PushLoadKeeps<T>(q: Queue<T>, at: nat, size: nat)
    requires Inv(q, size) && Shape(q, size) && Enabled(q, PushLoad(at))
    ensures Inv(Take(q, PushLoad(at), size), size)
  {
    SameIndex(at, |q.heads|, size);
  }

  lemma PushWriteKeeps<T>(q: Queue<T>, size: nat)
    requires Inv(q, size) && Shape(q, size) && Enabled(q, PushWrite)
    ensures Inv(Take(q, PushWrite, size), size)
  {
    Bounded(q, size);
    var r := Take(q, PushWrite, size);
    forall k | |q.popped| <= k < |q.pushed| ensures r.buffer[Slot(k, size)] == q.pushed[k] {
      SameIndex(k, |q.pushed|, size);
    }
  }

  lemma WrappedPush(order: seq<nat>, size: nat)
    requires size > 0 && Wrapped(order, size)
    ensures Wrapped(order + [Slot(|order|, size)], size)
  {
  }

  lemma PushStoreKeeps<T>(q: Queue<T>, size: nat)
    requires Inv(q, size) && Shape(q, size) && Enabled(q, PushStore)
    ensures Inv(Take(q, PushStore, size), size)
  {
    hide Wrapped, Slot, PowerOfTwo;
    var r := Take(q, PushStore, size);
    WrappedPush(q.heads, size);
    forall k | |r.popped| <= k < |r.pushed| ensures r.buffer[Slot(k, size)] == r.pushed[k] {
      assert k < |q.pushed| ==> r.pushed[k] == q.pushed[k];
    }
  }

  lemma PopCallKeeps<T>(q: Queue<T>, size: nat)
    requires Inv(q, size) && Shape(q, size) && Enabled(q, PopCall)
    ensures Inv(Take(q, PopCall, size), size)
  {
    Bounded(q, size);
    SameIndex(|q.tails| - 1, q.seenHead, size);
  }

  lemma PopLoadKeeps<T>(q: Queue<T>, at: nat, size: nat)
    requires Inv(q, size) && Shape(q, size) && Enabled(q, PopLoad(at))
    ensures Inv(Take(q, PopLoad(at), size), size)
  {
    Bounded(q, size);
    SameIndex(|q.tails| - 1, at, size);
  }

  lemma PopReadKeeps<T>(q: Queue<T>, size: nat)
    requires Inv(q, size) && Shape(q, size) && Enabled(q, PopRead)
    ensures Inv(Take(q, PopRead, size), size)
  {
    Bounded(q, size);
    assert q.buffer[Slot(|q.popped|, size)] == q.pushed[|q.popped|];
  }

  lemma PoppedMore<T>(popped: seq<T>, pushed: seq<T>)
    requires popped <= pushed && |popped| < |pushed|
    ensures popped + [pushed[|popped|]] <= pushed
  {
  }

  lemma NextTail<T>(q: Queue<T>, size: nat)
    requires Inv(q, size) && Shape(q, size)
    ensures BitAnd(Tail(q) + 1, size - 1) == Slot(|q.tails|, size)
  {
    Bounded(q, size);
    MaskIsSlot(size, Tail(q) + 1);
    NextIndex(|q.tails| - 1, size);
  }

  lemma PopStoreKeeps<T>(q: Queue<T>, size: nat)
    requires Inv(q, size) && Shape(q, size) && Enabled(q, PopStore)
    ensures Inv(Take(q, PopStore, size), size)
  {
    hide Wrapped, Slot, PowerOfTwo, BitAnd;
    NextTail(q, size);
    WrappedPush(q.tails, size);
    PoppedMore(q.popped, q.pushed);
  }

  lemma StepKeeps<T>(q: Queue<T>, e: Step<T>, size: nat)
    requires Inv(q, size) && Enabled(q, e)
    ensures Shape(q, size) && Inv(Take(q, e, size), size) && Shape(Take(q, e, size), size)
  {
    Bounded(q, size);
    match e {
      case PushCall(value) => PushCallKeeps(q, value, size);
      case PushLoad(at) => PushLoadKeeps(q, at, size);
      case PushWrite => PushWriteKeeps(q, size);
      case PushStore => PushStoreKeeps(q, size);
      case PopCall => PopCallKeeps(q, size);
      case PopLoad(at) => PopLoadKeeps(q, at, size);
      case PopRead => PopReadKeeps(q, size);
      case PopStore => PopStoreKeeps(q, size);
    }
    Bounded(Take(q, e, size), size);
  }

  lemma Holds<T>(q: Queue<T>, size: nat)
    requires Inv(q, size)
    ensures q.popped <= q.pushed && |q.pushed| - |q.popped| <= size - 1
    ensures |q.popped| == |q.tails| - 1 && |q.pushed| == |q.heads| - 1
    ensures q.seenTail < |q.tails| && q.seenHead < |q.heads|
    ensures q.producer.Writing? ==> |q.pushed| - |q.popped| < size - 1
    ensures q.consumer.Reading? ==> |q.popped| < |q.pushed|
    ensures q.consumer.Freeing? ==> |q.popped| < |q.pushed| && q.consumer.value == q.pushed[|q.popped|]
  {
  }

  // ---- Whole executions ------------------------------------------------------------------

  /** `steps` is an interleaving that the two threads can take from `q`, and `r` is where it leads. */
  ghost predicate Leads<T>(q: Queue<T>, steps: seq<Step<T>>, size: nat, r: Queue<T>)
    decreases |steps|
  {
    if |steps| == 0 then r == q
    else size > 0 && Shape(q, size) && Enabled(q, steps[0]) && Leads(Take(q, steps[0], size), steps[1..], size, r)
  }

  lemma {:induction false} LeadsKeeps<T>(q: Queue<T>, steps: seq<Step<T>>, size: nat, r: Queue<T>)
    requires Inv(q, size) && Leads(q, steps, size, r)
    ensures Inv(r, size)
    decreases |steps|
  {
    if |steps| == 0 {
    } else {
      StepKeeps(q, steps[0], size);
      LeadsKeeps(Take(q, steps[0], size), steps[1..], size, r);
    }
  }

  /** In every interleaving the items popped are a prefix of those pushed, and never more than size - 1 are held. */
  lemma FifoAlways<T>(buffer: seq<T>, steps: seq<Step<T>>, r: Queue<T>)
    requires PowerOfTwo(|buffer|) && Leads(Fresh(buffer), steps, |buffer|, r)
    ensures Inv(r, |buffer|)
    ensures r.popped <= r.pushed && |r.pushed| - |r.popped| <= |buffer| - 1
  {
    FreshOk(buffer);
    LeadsKeeps(Fresh(buffer), steps, |buffer|, r);
  }

  /** No step changes a slot that holds an unread item. */
  lemma UnreadUntouched<T>(q: Queue<T>, e: Step<T>, size: nat, k: nat)
    requires Inv(q, size) && Enabled(q, e) && |q.popped| <= k < |q.pushed|
    ensures Shape(q, size) && Take(q, e, size).buffer[Slot(k, size)] == q.buffer[Slot(k, size)] == q.pushed[k]
  {
    Bounded(q, size);
    SameIndex(k, |q.pushed|, size);
  }

  /** The producer about to write and the consumer about to read are never at the same slot. */
  lemma NoRace<T>(q: Queue<T>, size: nat)
    requires Inv(q, size) && Enabled(q, PushWrite) && Enabled(q, PopRead)
    ensures Head(q) != Tail(q)
  {
    Bounded(q, size);
    SameIndex(|q.popped|, |q.pushed|, size);
  }

  /** A push fails exactly when the tail it loads leaves no room; it never fails on a fresh load with room. */
  lemma PushFailsWhenFull<T>(q: Queue<T>, at: nat, size: nat)
    requires Inv(q, size) && Enabled(q, PushLoad(at))
    ensures Shape(q, size)
    ensures Take(q, PushLoad(at), size).producer.Idle? <==> |q.pushed| - at == size - 1
    ensures at == |q.popped| ==>
              (Take(q, PushLoad(at), size).producer.Idle? <==> |q.pushed| - |q.popped| == size - 1)
    ensures |q.pushed| - |q.popped| == size - 1 ==> Take(q, PushLoad(at), size).producer.Idle?
  {
    Bounded(q, size);
    SameIndex(at, |q.heads|, size);
  }

  /** A pop fails exactly when the head it loads shows nothing beyond what is popped already. */
  lemma PopFailsWhenEmpty<T>(q: Queue<T>, at: nat, size: nat)
    requires Inv(q, size) && Enabled(q, PopLoad(at))
    ensures Shape(q, size)
    ensures Take(q, PopLoad(at), size).consumer.Resting? <==> at == |q.popped|
    ensures at == |q.pushed| ==>
              (Take(q, PopLoad(at), size).consumer.Resting? <==> q.popped == q.pushed)
    ensures q.popped == q.pushed ==> Take(q, PopLoad(at), size).consumer.Resting?
  {
    Bounded(q, size);
    SameIndex(|q.popped|, at, size);
  }

  /**
   A slot is read only after the head that published it was loaded, and written only after the tail
   that freed it was loaded: every access is ordered by a release store and the acquire load that saw it.
   */
  lemma SeenBeforeTouched<T>(buffer: seq<T>, steps: seq<Step<T>>, r: Queue<T>)
    requires PowerOfTwo(|buffer|) && Leads(Fresh(buffer), steps, |buffer|, r)
    ensures Enabled(r, PopRead) ==> |r.popped| < r.seenHead < |r.heads|
    ensures Enabled(r, PushWrite) ==> |r.pushed| - |buffer| < r.seenTail < |r.tails|
    ensures Enabled(r, PushWrite) && Enabled(r, PopRead) ==> Shape(r, |buffer|) && Head(r) != Tail(r)
  {
    FifoAlways(buffer, steps, r);
    if Enabled(r, PushWrite) && Enabled(r, PopRead) {
      NoRace(r, |buffer|);
      Bounded(r, |buffer|);
    }
  }

  // ---- When calls return without an item -------------------------------------------------

  /** A call to pop loads the head exactly when the cached one shows nothing unread; otherwise it goes on to read. */
  lemma PopCallDecides<T>(q: Queue<T>, size: nat)
    requires Inv(q, size) && Enabled(q, PopCall)
    ensures Shape(q, size)
    ensures Take(q, PopCall, size).consumer == if q.seenHead == |q.popped| then Looking else Reading
  {
    Bounded(q, size);
    SameIndex(|q.popped|, q.seenHead, size);
  }

  /** A call to push loads the tail exactly when the cached one leaves no room; otherwise it goes on to write. */
  lemma PushCallDecides<T>(q: Queue<T>, value: T, size: nat)
    requires Inv(q, size) && Enabled(q, PushCall(value))
    ensures Shape(q, size)
    ensures var p := Take(q, PushCall(value), size).producer;
            p == if |q.pushed| - q.seenTail == size - 1 then Loading(value, p.next) else Writing(value, p.next)
  {
    Bounded(q, size);
    NextHead(q, size);
    SameIndex(q.seenTail, |q.heads|, size);
  }

  predicate OfConsumer<T>(e: Step<T>) {
    e.PopCall? || e.PopLoad? || e.PopRead? || e.PopStore?
  }

  /** A step with which its thread comes to the end of a call, or stays at its end, without passing on an item. */
  ghost predicate ReturnsEmpty<T>(q: Queue<T>, e: Step<T>, r: Queue<T>) {
    if OfConsumer(e) then r.consumer.Resting? && r.popped == q.popped else r.producer.Idle? && r.pushed == q.pushed
  }

  lemma PopReturnsEmpty<T>(q: Queue<T>, e: Step<T>, size: nat)
    requires Inv(q, size) && Enabled(q, e) && OfConsumer(e)
    ensures Shape(q, size)
    ensures ReturnsEmpty(q, e, Take(q, e, size)) <==> e.PopLoad? && e.at == |q.popped|
  {
    Bounded(q, size);
    if e.PopCall? {
      PopCallDecides(q, size);
    } else if e.PopLoad? {
      PopFailsWhenEmpty(q, e.at, size);
    } else if e.PopStore? {
      assert |Take(q, e, size).popped| == |q.popped| + 1;
    }
  }

  lemma PushReturnsEmpty<T>(q: Queue<T>, e: Step<T>, size: nat)
    requires Inv(q, size) && Enabled(q, e) && !OfConsumer(e)
    ensures Shape(q, size)
    ensures ReturnsEmpty(q, e, Take(q, e, size)) <==> e.PushLoad? && |q.pushed| - e.at == size - 1
  {
    Bounded(q, size);
    if e.PushCall? {
      PushCallDecides(q, e.value, size);
    } else if e.PushLoad? {
      PushFailsWhenFull(q, e.at, size);
    } else if e.PushStore? {
      assert |Take(q, e, size).pushed| == |q.pushed| + 1;
    }
  }

  /**
   In every execution, a call to pop returns without an item exactly by loading a head that shows
   nothing unread, and a call to push exactly by loading a tail that leaves no room.
   */
  lemma EmptyReturns<T>(buffer: seq<T>, steps: seq<Step<T>>, q: Queue<T>, e: Step<T>)
    requires PowerOfTwo(|buffer|) && Leads(Fresh(buffer), steps, |buffer|, q) && Enabled(q, e)
    ensures Shape(q, |buffer|)
    ensures ReturnsEmpty(q, e, Take(q, e, |buffer|))
        <==> if OfConsumer(e) then e.PopLoad? && e.at == |q.popped|
             else e.PushLoad? && |q.pushed| - e.at == |buffer| - 1
  {
    hide Inv, ReturnsEmpty;
    FifoAlways(buffer, steps, q);
    if OfConsumer(e) {
      PopReturnsEmpty(q, e, |buffer|);
    } else {
      PushReturnsEmpty(q, e, |buffer|);
    }
  }

  // ---- A thread that is left alone -------------------------------------------------------

  /** The consumer's next step; when it loads, it loads the latest head. */
  function NextPop<T>(q: Queue<T>): Step<T>
    requires |q.heads| > 0
  {
    match q.consumer
    case Resting => PopCall
    case Looking => PopLoad(|q.heads| - 1)
    case Reading => PopRead
    case Freeing(_) => PopStore
  }

  /** The producer's next step with `value` to push; when it loads, it loads the latest tail. */
  function NextPush<T>(q: Queue<T>, value: T): Step<T>
    requires |q.tails| > 0
  {
    match q.producer
    case Idle => PushCall(value)
    case Loading(_, _) => PushLoad(|q.tails| - 1)
    case Writing(_, _) => PushWrite
    case Publishing(_, _) => PushStore
  }

  /** Steps of the consumer alone up to its next rest. */
  ghost predicate PopsAlone<T>(q: Queue<T>, steps: seq<Step<T>>, size: nat, r: Queue<T>)
    decreases |steps|
  {
    && |steps| > 0 && size > 0 && Shape(q, size) && Enabled(q, steps[0]) && steps[0] == NextPop(q)
    && var next := Take(q, steps[0], size);
    if next.consumer.Resting? then |steps| == 1 && r == next else PopsAlone(next, steps[1..], size, r)
  }

  /** Steps of the producer alone up to its next rest. */
  ghost predicate PushesAlone<T>(q: Queue<T>, value: T, steps: seq<Step<T>>, size: nat, r: Queue<T>)
    decreases |steps|
  {
    && |steps| > 0 && size > 0 && Shape(q, size) && Enabled(q, steps[0]) && steps[0] == NextPush(q, value)
    && var next := Take(q, steps[0], size);
    if next.producer.Idle? then |steps| == 1 && r == next else PushesAlone(next, value, steps[1..], size, r)
  }

  /** How far a thread is from its rest. */
  function PopDistance<T>(c: Consumer<T>): nat {
    match c
    case Resting => 4
    case Looking => 3
    case Reading => 2
    case Freeing(_) => 1
  }

  function PushDistance<T>(p: Producer<T>): nat {
    match p
    case Idle => 4
    case Loading(_, _) => 3
    case Writing(_, _) => 2
    case Publishing(_, _) => 1
  }

  lemma NextPopKeeps<T>(q: Queue<T>, size: nat)
    requires Inv(q, size) && |q.popped| < |q.pushed|
    ensures Shape(q, size) && Enabled(q, NextPop(q)) && Inv(Take(q, NextPop(q), size), size)
    ensures var r := Take(q, NextPop(q), size);
            && r.pushed == q.pushed
            && if q.consumer.Freeing? then r.consumer.Resting? && r.popped == q.popped + [q.pushed[|q.popped|]]
               else !r.consumer.Resting? && r.popped == q.popped && PopDistance(r.consumer) < PopDistance(q.consumer)
  {
    hide IndicesOk, SlotsOk;
    Holds(q, size);
    assert Enabled(q, NextPop(q));
    StepKeeps(q, NextPop(q), size);
    if q.consumer.Resting? {
      PopCallDecides(q, size);
    } else if q.consumer.Looking? {
      PopFailsWhenEmpty(q, |q.heads| - 1, size);
    }
  }

  /** A consumer alone with an unread item pops exactly the oldest one, from wherever it stands in a call. */
  lemma {:induction false} PopAlone<T>(q: Queue<T>, size: nat) returns (steps: seq<Step<T>>, r: Queue<T>)
    requires Inv(q, size) && |q.popped| < |q.pushed|
    ensures PopsAlone(q, steps, size, r) && Inv(r, size)
    ensures r.popped == q.popped + [q.pushed[|q.popped|]] && r.pushed == q.pushed
    ensures |steps| <= PopDistance(q.consumer)
    decreases PopDistance(q.consumer)
  {
    hide Inv, Take;
    NextPopKeeps(q, size);
    var next := Take(q, NextPop(q), size);
    if q.consumer.Freeing? {
      steps, r := [NextPop(q)], next;
    } else {
      var rest;
      rest, r := PopAlone(next, size);
      steps := [NextPop(q)] + rest;
      assert steps[1..] == rest;
    }
  }

  lemma NextPushKeeps<T>(q: Queue<T>, value: T, size: nat)
    requires Inv(q, size) && |q.pushed| - |q.popped| < size - 1
    ensures Shape(q, size) && Enabled(q, NextPush(q, value)) && Inv(Take(q, NextPush(q, value), size), size)
    ensures var r, v := Take(q, NextPush(q, value), size), if q.producer.Idle? then value else q.producer.value;
            && r.popped == q.popped
            && if q.producer.Publishing? then r.producer.Idle? && r.pushed == q.pushed + [v]
               else && !r.producer.Idle? && r.producer.value == v && r.pushed == q.pushed
                    && PushDistance(r.producer) < PushDistance(q.producer)
  {
    hide IndicesOk, SlotsOk;
    Holds(q, size);
    assert Enabled(q, NextPush(q, value));
    StepKeeps(q, NextPush(q, value), size);
    if q.producer.Idle? {
      PushCallDecides(q, value, size);
    } else if q.producer.Loading? {
      PushFailsWhenFull(q, |q.tails| - 1, size);
    }
  }

  /** A producer alone with room pushes exactly its value: the one it is at, or else `value`. */
  lemma {:induction false} PushAlone<T>(q: Queue<T>, value: T, size: nat) returns (steps: seq<Step<T>>, r: Queue<T>)
    requires Inv(q, size) && |q.pushed| - |q.popped| < size - 1
    ensures PushesAlone(q, value, steps, size, r) && Inv(r, size)
    ensures r.pushed == q.pushed + [if q.producer.Idle? then value else q.producer.value]
    ensures r.popped == q.popped && |steps| <= PushDistance(q.producer)
    decreases PushDistance(q.producer)
  {
    hide Inv, Take;
    NextPushKeeps(q, value, size);
    var next := Take(q, NextPush(q, value), size);
    if q.producer.Publishing? {
      steps, r := [NextPush(q, value)], next;
    } else {
      var rest;
      rest, r := PushAlone(next, value, size);
      steps := [NextPush(q, value)] + rest;
      assert steps[1..] == rest;
    }
  }

  // ---- The object, used by one thread at a time ------------------------------------------

  lemma BeginPush<T>(q: Queue<T>, value: T, size: nat) returns (r: Queue<T>)
    requires Inv(q, size) && Shape(q, size) && q.producer.Idle?
    ensures Inv(r, size) && Shape(r, size)
    ensures var next := BitAnd(Head(q) + 1, size - 1);
            var seen := if next == q.tailCache then Tail(q) else q.tailCache;
            && r == q.(tailCache := seen, seenTail := r.seenTail,
                       producer := if next == seen then Idle else Writing(value, next))
            && (next == seen <==> |q.pushed| - |q.popped| == size - 1)
  {
    hide Inv, BitAnd;
    StepKeeps(q, PushCall(value), size);
    r := Take(q, PushCall(value), size);
    Holds(r, size);
    if r.producer.Loading? {
      var e: Step<T> := PushLoad(|q.tails| - 1);
      PushFailsWhenFull(r, |q.tails| - 1, size);
      StepKeeps(r, e, size);
      r := Take(r, e, size);
      Holds(r, size);
    }
  }

  lemma EndPush<T>(q: Queue<T>, size: nat) returns (r: Queue<T>)
    requires Inv(q, size) && Shape(q, size) && q.producer.Writing?
    ensures Inv(r, size) && Shape(r, size)
    ensures r == q.(buffer := q.buffer[Head(q) := q.producer.value], heads := q.heads + [q.producer.next],
                    pushed := q.pushed + [q.producer.value], producer := Idle)
  {
    hide Inv;
    StepKeeps(q, PushWrite, size);
    r := Take(q, PushWrite, size);
    StepKeeps(r, PushStore, size);
    r := Take(r, PushStore, size);
  }

  lemma BeginPop<T>(q: Queue<T>, size: nat) returns (r: Queue<T>)
    requires Inv(q, size) && Shape(q, size) && q.consumer.Resting?
    ensures Inv(r, size) && Shape(r, size)
    ensures var seen := if Tail(q) == q.headCache then Head(q) else q.headCache;
            && r == q.(headCache := seen, seenHead := r.seenHead,
                       consumer := if Tail(q) == seen then Resting else Reading)
            && (Tail(q) == seen <==> q.popped == q.pushed)
  {
    hide Inv;
    StepKeeps(q, PopCall, size);
    r := Take(q, PopCall, size);
    Holds(r, size);
    if r.consumer.Looking? {
      var e: Step<T> := PopLoad(|q.heads| - 1);
      PopFailsWhenEmpty(r, |q.heads| - 1, size);
      StepKeeps(r, e, size);
      r := Take(r, e, size);
    }
  }

  lemma EndPop<T>(q: Queue<T>, size: nat) returns (r: Queue<T>)
    requires Inv(q, size) && Shape(q, size) && q.consumer.Reading?
    ensures Inv(r, size) && Shape(r, size)
    ensures |q.popped| < |q.pushed| && q.buffer[Tail(q)] == q.pushed[|q.popped|]
    ensures r == q.(tails := q.tails + [BitAnd(Tail(q) + 1, size - 1)],
                    popped := q.popped + [q.buffer[Tail(q)]], consumer := Resting)
  {
    hide Inv;
    StepKeeps(q, PopRead, size);
    r := Take(q, PopRead, size);
    Holds(r, size);
    StepKeeps(r, PopStore, size);
    r := Take(r, PopStore, size);
  }

  class Ring<T(0)> {
    const size: nat
    const buffer: array<T>
    var head: nat
    var tailCache: nat
    var tail: nat
    var headCache: nat
    ghost var model: Queue<T>

    ghost predicate Valid()
      reads this, buffer
    {
      && Inv(model, size) && Shape(model, size) && model.producer.Idle? && model.consumer.Resting?
      && buffer.Length == size && buffer[..] == model.buffer
      && head == Head(model) && tail == Tail(model)
      && tailCache == model.tailCache && headCache == model.headCache
    }

    ghost function Contents(): seq<T>
      requires Valid()
      reads this, buffer
    {
      model.pushed[|model.popped|..]
    }

    constructor (size: nat)
      requires PowerOfTwo(size)
      ensures Valid() && fresh(buffer) && this.size == size && Contents() == []
    {
      this.size := size;
      buffer := new T[size];
      head, tailCache, tail, headCache := 0, 0, 0, 0;
      new;
      model := Fresh(buffer[..]);
      FreshOk(buffer[..]);
      Bounded(model, size);
    }

    /** Accepts the value exactly when fewer than size - 1 items are held. */
    method Push(value: T) returns (ok: bool)
      requires Valid()
      modifies this`head, this`tailCache, this`model, buffer
      ensures Valid()
      ensures ok <==> |old(Contents())| < size - 1
      ensures Contents() == old(Contents()) + if ok then [value] else []
    {
      hide Inv, BitAnd;
      Holds(model, size);
      ghost var begun := BeginPush(model, value, size);
      var next := BitAnd(head + 1, size - 1);
      if next == tailCache {
        tailCache := tail;
        if next == tailCache {
          model := begun;
          return false;
        }
      }
      model := EndPush(begun, size);
      buffer[head] := value;
      head := next;
      ok := true;
    }

    /** Takes the oldest item, when there is one. */
    method Pop() returns (ok: bool, out: T)
      requires Valid()
      modifies this`tail, this`headCache, this`model
      ensures Valid()
      ensures ok <==> old(Contents()) != []
      ensures old(Contents()) == (if ok then [out] else []) + Contents()
    {
      hide Inv, BitAnd;
      out := *;
      Holds(model, size);
      ghost var begun := BeginPop(model, size);
      if tail == headCache {
        headCache := head;
        if tail == headCache {
          model := begun;
          return false, out;
        }
      }
      model := EndPop(begun, size);
      out := buffer[tail];
      tail := BitAnd(tail + 1, size - 1);
      ok := true;
    }
  }
}
