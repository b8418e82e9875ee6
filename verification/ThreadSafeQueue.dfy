/**
 The closable blocking queue: a mutex, a condition variable, a list of items and a closed flag, used
 by any number of threads. A thread's program counter says where in which operation it is; one step
 of one thread is taken at a time, in any order. Waiting threads may also wake for no reason.
 */
module ThreadSafeQueue {

  type Tid = nat

  datatype Operation<T> = Push(value: T) | WaitAndPop | TryPop | Close

  /** What a call has come to; pops do not repeat the item, which is the last one taken. */
  datatype Outcome = Nothing | Pushed(ok: bool) | Popped(ok: bool) | Tried(ok: bool) | Closed

  datatype Pc<T> =
    | Idle(last: Outcome)
    | Entering(op: Operation<T>)              // wants the mutex
    | Inside(op: Operation<T>, woken: bool)   // has it; `woken` when back from a wait
    | Taking(woken: bool)                     // has it, and the wait is over
    | Sleeping                                // waits on the condition variable
    | Waking                                  // was woken, wants the mutex back
    | Leaving(outcome: Outcome)               // has it, and is about to let go
    | NotifyingOne                            // after the mutex: about to notify
    | NotifyingAll

  datatype Owner = Free | Held(tid: Tid)

  datatype Monitor<T> = Monitor(queue: seq<T>, closed: bool, owner: Owner, pc: map<Tid, Pc<T>>,
                                accepted: seq<T>, taken: seq<T>)

  datatype Step<T> =
    | Call(t: Tid, op: Operation<T>)
    | Acquire(t: Tid)
    | Work(t: Tid)
    | Release(t: Tid)
    | Notify(t: Tid, sleepers: set<Tid>)  // the threads that a notification wakes
    | Spurious(t: Tid)

  predicate HasMutex<T>(p: Pc<T>) {
    p.Inside? || p.Taking? || p.Leaving?
  }

  function Sleepers<T>(m: Monitor<T>): set<Tid> {
    set t | t in m.pc && m.pc[t].Sleeping?
  }

  /** One notification wakes one sleeper if there is any, the other kind wakes them all. */
  predicate Enabled<T>(m: Monitor<T>, e: Step<T>) {
    && e.t in m.pc
    && var p := m.pc[e.t];
    match e
    case Call(_, _) => p.Idle?
    case Acquire(_) => m.owner == Free && (p.Entering? || p.Waking?)
    case Work(_) => p.Inside? || p.Taking?
    case Release(_) => p.Leaving?
    case Notify(_, woken) =>
      && woken <= Sleepers(m)
      && (|| (p.NotifyingOne? && |woken| == if Sleepers(m) == {} then 0 else 1)
          || (p.NotifyingAll? && woken == Sleepers(m)))
    case Spurious(_) => p.Sleeping?
  }

  function Goes<T>(m: Monitor<T>, t: Tid, p: Pc<T>): Monitor<T> {
    m.(pc := m.pc[t := p])
  }

  /** A push that was accepted still has to notify one thread, a close all of them. */
  function After<T>(outcome: Outcome): Pc<T> {
    if outcome == Pushed(true) then NotifyingOne else if outcome == Closed then NotifyingAll else Idle(outcome)
  }

  function PopFront<T>(m: Monitor<T>): Monitor<T>
    requires m.queue != []
  {
    m.(queue := m.queue[1..], taken := m.taken + [m.queue[0]])
  }

  /** What is done under the mutex. */
  function Body<T>(m: Monitor<T>, t: Tid, p: Pc<T>): Monitor<T>
    requires p.Inside? || p.Taking?
  {
    if p.Taking? then
      if m.queue == [] then Goes(m, t, Leaving(Popped(false))) else Goes(PopFront(m), t, Leaving(Popped(true)))
    else
      match p.op
      case Push(value) =>
        if m.closed then Goes(m, t, Leaving(Pushed(false)))
        else Goes(m, t, Leaving(Pushed(true))).(queue := m.queue + [value], accepted := m.accepted + [value])
      case WaitAndPop =>
        if m.closed || m.queue != [] then Goes(m, t, Taking(p.woken)) else Goes(m, t, Sleeping).(owner := Free)
      case TryPop =>
        if m.queue == [] then Goes(m, t, Leaving(Tried(false))) else Goes(PopFront(m), t, Leaving(Tried(true)))
      case Close => Goes(m, t, Leaving(Closed)).(closed := true)
  }

  function Take<T>(m: Monitor<T>, e: Step<T>): Monitor<T>
    requires Enabled(m, e)
  {
    var p := m.pc[e.t];
    match e
    case Call(t, op) => Goes(m, t, Entering(op))
    case Acquire(t) =>
      Goes(m, t, if p.Entering? then Inside(p.op, false) else Inside(WaitAndPop, true)).(owner := Held(t))
    case Work(t) => Body(m, t, p)
    case Release(t) => Goes(m, t, After(p.outcome)).(owner := Free)
    case Notify(t, woken) =>
      var done := Idle(if p.NotifyingOne? then Pushed(true) else Closed);
      m.(pc := map u | u in m.pc :: if u in woken then Waking else if u == t then done else m.pc[u])
    case Spurious(t) => Goes(m, t, Waking)
  }

  // ---- Threads by what they are about to do ----------------------------------------------

  predicate IsNotifier<T>(p: Pc<T>) {
    p.NotifyingOne? || p == Leaving(Pushed(true))
  }

  /** Threads that have put an item in and not notified yet. */
  function Notifiers<T>(m: Monitor<T>): set<Tid> {
    set t | t in m.pc && IsNotifier(m.pc[t])
  }

  predicate IsAwake<T>(p: Pc<T>) {
    p.Waking? || (p.Inside? && p.woken) || (p.Taking? && p.woken)
  }

  /** Threads that were woken from a wait and have not taken an item or gone back to sleep yet. */
  function Awake<T>(m: Monitor<T>): set<Tid> {
    set t | t in m.pc && IsAwake(m.pc[t])
  }

  predicate IsCloser<T>(p: Pc<T>) {
    p.NotifyingAll? || p == Leaving(Closed)
  }

  // ---- What every step keeps -------------------------------------------------------------

  /** Whoever has the mutex is its owner, and only a pop comes back from a wait. */
  predicate MutexOk<T(!new)>(m: Monitor<T>) {
    && (forall t {:trigger m.pc[t]} :: t in m.pc && HasMutex(m.pc[t]) ==> m.owner == Held(t))
    && (forall t {:trigger m.pc[t]} :: t in m.pc && m.pc[t].Inside? && m.pc[t].woken ==> m.pc[t].op.WaitAndPop?)
    && (m.owner.Held? ==> m.owner.tid in m.pc && HasMutex(m.pc[m.owner.tid]))
  }

  /** Items leave in the order in which they were accepted, and none is lost. */
  ghost predicate ItemsOk<T(!new)>(m: Monitor<T>) {
    m.accepted == m.taken + m.queue
  }

  ghost predicate OutcomesOk<T(!new)>(m: Monitor<T>) {
    forall t {:trigger m.pc[t]} :: t in m.pc ==>
      && (m.pc[t].Taking? ==> m.closed || m.queue != [])
      && (m.pc[t] == Idle(Popped(false)) || m.pc[t] == Leaving(Popped(false)) ==> m.closed && m.queue == [])
      && (m.pc[t] == Idle(Pushed(false)) || m.pc[t] == Leaving(Pushed(false)) ==> m.closed)
      && (IsCloser(m.pc[t]) ==> m.closed)
  }

  /** While the queue is open, sleepers and items together mean that somebody is on the way. */
  predicate NoLostWakeup<T>(m: Monitor<T>) {
    !m.closed ==> Sleepers(m) == {} || |m.queue| <= |Notifiers(m)| + |Awake(m)|
  }

  ghost predicate SomeCloser<T(!new)>(m: Monitor<T>) {
    exists t {:trigger m.pc[t]} :: t in m.pc && IsCloser(m.pc[t])
  }

  /** After it is closed, sleepers mean that a closing thread has yet to wake them all. */
  ghost predicate CloseWakes<T(!new)>(m: Monitor<T>) {
    m.closed && Sleepers(m) != {} ==> SomeCloser(m)
  }

  ghost predicate Inv<T(!new)>(m: Monitor<T>) {
    MutexOk(m) && ItemsOk(m) && OutcomesOk(m) && NoLostWakeup(m) && CloseWakes(m)
  }

  // One thread moving changes the sets above at that thread only.

  lemma CardAfter(s: set<Tid>, t: Tid)
    ensures |s + {t}| == |s| + if t in s then 0 else 1
    ensures |s - {t}| == |s| - if t in s then 1 else 0
  {
    assert t in s ==> s + {t} == s;
    assert t !in s ==> s - {t} == s;
  }

  lemma SleepersAfter<T>(m: Monitor<T>, t: Tid, p: Pc<T>)
    ensures Sleepers(Goes(m, t, p)) == if p.Sleeping? then Sleepers(m) + {t} else Sleepers(m) - {t}
  {
  }

  lemma NotifiersAfter<T>(m: Monitor<T>, t: Tid, p: Pc<T>)
    ensures Notifiers(Goes(m, t, p)) == if IsNotifier(p) then Notifiers(m) + {t} else Notifiers(m) - {t}
  {
  }

  lemma AwakeAfter<T>(m: Monitor<T>, t: Tid, p: Pc<T>)
    ensures Awake(Goes(m, t, p)) == if IsAwake(p) then Awake(m) + {t} else Awake(m) - {t}
  {
  }

  lemma SetsAfter<T>(m: Monitor<T>, t: Tid, p: Pc<T>)
    requires t in m.pc
    ensures var n := Goes(m, t, p);
            && Sleepers(n) == (if p.Sleeping? then Sleepers(m) + {t} else Sleepers(m) - {t})
            && |Notifiers(n)| == |Notifiers(m)|
                                 + (if IsNotifier(p) then 1 else 0) - (if IsNotifier(m.pc[t]) then 1 else 0)
            && |Awake(n)| == |Awake(m)| + (if IsAwake(p) then 1 else 0) - (if IsAwake(m.pc[t]) then 1 else 0)
  {
    hide Goes;
    SleepersAfter(m, t, p);
    NotifiersAfter(m, t, p);
    AwakeAfter(m, t, p);
    CardAfter(Notifiers(m), t);
    CardAfter(Awake(m), t);
  }

  /** A thread that moves without ceasing to be a closer leaves some closer behind. */
  lemma CloserStays<T(!new)>(m: Monitor<T>, t: Tid, p: Pc<T>)
    requires t in m.pc && (IsCloser(m.pc[t]) ==> IsCloser(p))
    ensures SomeCloser(m) ==> SomeCloser(Goes(m, t, p))
  {
    if SomeCloser(m) {
      var u :| u in m.pc && IsCloser(m.pc[u]);
      assert u in Goes(m, t, p).pc;
    }
  }

  lemma CallKeeps<T(!new)>(m: Monitor<T>, t: Tid, op: Operation<T>)
    requires Inv(m) && Enabled(m, Call(t, op))
    ensures Inv(Take(m, Call(t, op)))
  {
    SetsAfter(m, t, Entering(op));
    CloserStays(m, t, Entering(op));
  }

  lemma AcquireKeeps<T(!new)>(m: Monitor<T>, t: Tid)
    requires Inv(m) && Enabled(m, Acquire(t))
    ensures Inv(Take(m, Acquire(t)))
  {
    var p := if m.pc[t].Entering? then Inside(m.pc[t].op, false) else Inside(WaitAndPop, true);
    SetsAfter(m, t, p);
    CloserStays(m, t, p);
  }

  lemma ReleaseKeeps<T(!new)>(m: Monitor<T>, t: Tid)
    requires Inv(m) && Enabled(m, Release(t))
    ensures Inv(Take(m, Release(t)))
  {
    SetsAfter(m, t, After(m.pc[t].outcome));
    CloserStays(m, t, After(m.pc[t].outcome));
  }

  lemma SpuriousKeeps<T(!new)>(m: Monitor<T>, t: Tid)
    requires Inv(m) && Enabled(m, Spurious(t))
    ensures Inv(Take(m, Spurious(t)))
  {
    SetsAfter(m, t, Waking);
    CloserStays(m, t, Waking);
  }

  lemma PushWorks<T(!new)>(m: Monitor<T>, t: Tid)
    requires Inv(m) && Enabled(m, Work(t)) && m.pc[t].Inside? && m.pc[t].op.Push?
    ensures Inv(Take(m, Work(t)))
  {
    SetsAfter(m, t, Leaving(Pushed(!m.closed)));
    CloserStays(m, t, Leaving(Pushed(!m.closed)));
  }

  lemma CloseWorks<T(!new)>(m: Monitor<T>, t: Tid)
    requires Inv(m) && Enabled(m, Work(t)) && m.pc[t].Inside? && m.pc[t].op.Close?
    ensures Inv(Take(m, Work(t)))
  {
    var n := Take(m, Work(t));
    assert t in n.pc && IsCloser(n.pc[t]);
  }

  lemma TryPopWorks<T(!new)>(m: Monitor<T>, t: Tid)
    requires Inv(m) && Enabled(m, Work(t)) && m.pc[t].Inside? && m.pc[t].op.TryPop?
    ensures Inv(Take(m, Work(t)))
  {
    SetsAfter(m, t, Leaving(Tried(m.queue != [])));
    CloserStays(m, t, Leaving(Tried(m.queue != [])));
  }

  lemma TakingWorks<T(!new)>(m: Monitor<T>, t: Tid)
    requires Inv(m) && Enabled(m, Work(t)) && m.pc[t].Taking?
    ensures Inv(Take(m, Work(t)))
  {
    SetsAfter(m, t, Leaving(Popped(m.queue != [])));
    CloserStays(m, t, Leaving(Popped(m.queue != [])));
  }

  /** The predicate is checked under the mutex, and going to sleep gives the mutex up in the same step. */
  lemma WaitWorks<T(!new)>(m: Monitor<T>, t: Tid)
    requires Inv(m) && Enabled(m, Work(t)) && m.pc[t].Inside? && m.pc[t].op.WaitAndPop?
    ensures Inv(Take(m, Work(t)))
  {
    var p := if m.closed || m.queue != [] then Taking(m.pc[t].woken) else Sleeping;
    SetsAfter(m, t, p);
    CloserStays(m, t, p);
  }

  lemma WorkKeeps<T(!new)>(m: Monitor<T>, t: Tid)
    requires Inv(m) && Enabled(m, Work(t))
    ensures Inv(Take(m, Work(t)))
  {
    if m.pc[t].Taking? {
      TakingWorks(m, t);
    } else {
      match m.pc[t].op
      case Push(_) => PushWorks(m, t);
      case WaitAndPop => WaitWorks(m, t);
      case TryPop => TryPopWorks(m, t);
      case Close => CloseWorks(m, t);
    }
  }

  /** Waking one thread is that thread moving on after the notifier has. */
  lemma NotifyOneIs<T(!new)>(m: Monitor<T>, t: Tid, u: Tid)
    requires Enabled(m, Notify(t, {u})) && m.pc[t].NotifyingOne?
    ensures Take(m, Notify(t, {u})) == Goes(Goes(m, t, Idle(Pushed(true))), u, Waking)
  {
    assert u in Sleepers(m);
    assert Take(m, Notify(t, {u})).pc == Goes(Goes(m, t, Idle(Pushed(true))), u, Waking).pc;
  }

  lemma NotifyWakesSleeper<T>(m: Monitor<T>, t: Tid, u: Tid)
    requires Enabled(m, Notify(t, {u})) && m.pc[t].NotifyingOne?
    ensures u in m.pc && m.pc[u].Sleeping?
  {
    assert u in Sleepers(m);
  }

  lemma NotifyKeepsRest<T(!new)>(m: Monitor<T>, t: Tid, u: Tid)
    requires Inv(m) && Enabled(m, Notify(t, {u})) && m.pc[t].NotifyingOne?
    ensures var n := Goes(Goes(m, t, Idle(Pushed(true))), u, Waking);
            MutexOk(n) && OutcomesOk(n) && (SomeCloser(m) ==> SomeCloser(n))
  {
    hide Sleepers, Notifiers, Awake;
    var n := Goes(m, t, Idle(Pushed(true)));
    CloserStays(m, t, Idle(Pushed(true)));
    NotifyWakesSleeper(m, t, u);
    CloserStays(n, u, Waking);
  }

  lemma NotifySomebody<T(!new)>(m: Monitor<T>, t: Tid, u: Tid)
    requires Inv(m) && Enabled(m, Notify(t, {u})) && m.pc[t].NotifyingOne?
    ensures Inv(Take(m, Notify(t, {u})))
  {
    hide MutexOk, OutcomesOk, SomeCloser, Take;
    var n := Goes(m, t, Idle(Pushed(true)));
    assert u in Sleepers(m);
    NotifyOneIs(m, t, u);
    SetsAfter(m, t, Idle(Pushed(true)));
    SetsAfter(n, u, Waking);
    NotifyKeepsRest(m, t, u);
  }

  lemma NotifyNobody<T(!new)>(m: Monitor<T>, t: Tid)
    requires Inv(m) && Enabled(m, Notify(t, {})) && m.pc[t].NotifyingOne?
    ensures Inv(Take(m, Notify(t, {})))
  {
    SetsAfter(m, t, Idle(Pushed(true)));
    CloserStays(m, t, Idle(Pushed(true)));
    assert Take(m, Notify(t, {})).pc == Goes(m, t, Idle(Pushed(true))).pc;
  }

  lemma NotifyOneKeeps<T(!new)>(m: Monitor<T>, t: Tid, woken: set<Tid>)
    requires Inv(m) && Enabled(m, Notify(t, woken)) && m.pc[t].NotifyingOne?
    ensures Inv(Take(m, Notify(t, woken)))
  {
    hide Inv;
    if woken == {} {
      NotifyNobody(m, t);
    } else {
      var u :| u in woken;
      assert |woken - {u}| == 0;
      assert woken == {u};
      NotifySomebody(m, t, u);
    }
  }

  lemma NotifyAllKeeps<T(!new)>(m: Monitor<T>, t: Tid, woken: set<Tid>)
    requires Inv(m) && Enabled(m, Notify(t, woken)) && m.pc[t].NotifyingAll?
    ensures Inv(Take(m, Notify(t, woken)))
  {
    var n := Take(m, Notify(t, woken));
    assert m.closed;
    forall u | u in n.pc ensures !n.pc[u].Sleeping? {
      assert m.pc[u].Sleeping? ==> u in Sleepers(m);
    }
    assert Sleepers(n) == {};
  }

  lemma StepKeeps<T(!new)>(m: Monitor<T>, e: Step<T>)
    requires Inv(m) && Enabled(m, e)
    ensures Inv(Take(m, e))
  {
    match e
    case Call(t, op) => CallKeeps(m, t, op);
    case Acquire(t) => AcquireKeeps(m, t);
    case Work(t) => WorkKeeps(m, t);
    case Release(t) => ReleaseKeeps(m, t);
    case Notify(t, woken) =>
      if m.pc[t].NotifyingOne? {
        NotifyOneKeeps(m, t, woken);
      } else {
        NotifyAllKeeps(m, t, woken);
      }
    case Spurious(t) => SpuriousKeeps(m, t);
  }

  // ---- Whole executions ------------------------------------------------------------------

  ghost predicate Leads<T(!new)>(m: Monitor<T>, steps: seq<Step<T>>, n: Monitor<T>)
    decreases |steps|
  {
    if |steps| == 0 then n == m
    else Enabled(m, steps[0]) && Leads(Take(m, steps[0]), steps[1..], n)
  }

  function Start<T>(threads: set<Tid>): Monitor<T> {
    Monitor([], false, Free, map t | t in threads :: Idle(Nothing), [], [])
  }

  lemma {:induction false} LeadsKeeps<T(!new)>(m: Monitor<T>, steps: seq<Step<T>>, n: Monitor<T>)
    requires Inv(m) && Leads(m, steps, n)
    ensures Inv(n)
    decreases |steps|
  {
    if |steps| == 0 {
    } else {
      StepKeeps(m, steps[0]);
      LeadsKeeps(Take(m, steps[0]), steps[1..], n);
    }
  }

  lemma StartOk<T(!new)>(threads: set<Tid>)
    ensures Inv(Start<T>(threads))
  {
  }

  /**
   Whatever the threads do and in whatever order: items leave in the order they were accepted in; a
   wait that has returned false did so on a closed queue with nothing left; and no wake-up is lost.
   */
  lemma EveryExecution<T(!new)>(threads: set<Tid>, steps: seq<Step<T>>, n: Monitor<T>)
    requires Leads(Start(threads), steps, n)
    ensures n.accepted == n.taken + n.queue
    ensures forall t {:trigger n.pc[t]} ::
              t in n.pc && n.pc[t] == Idle(Popped(false)) ==> n.closed && n.taken == n.accepted
    ensures !n.closed ==> Sleepers(n) == {} || |n.queue| <= |Notifiers(n)| + |Awake(n)|
    ensures n.closed && Sleepers(n) != {} ==> SomeCloser(n)
  {
    StartOk<T>(threads);
    LeadsKeeps(Start(threads), steps, n);
    assert n.taken + [] == n.taken;
  }

  /** Nobody is in the middle of an operation, except asleep in a wait. */
  predicate Quiet<T>(m: Monitor<T>) {
    forall t {:trigger m.pc[t]} :: t in m.pc ==> m.pc[t].Idle? || m.pc[t].Sleeping?
  }

  /** When all is quiet, a thread sleeps only if the queue is open and empty. */
  lemma SleepersHaveReason<T(!new)>(m: Monitor<T>)
    requires Inv(m) && Quiet(m) && Sleepers(m) != {}
    ensures !m.closed && m.queue == []
  {
    assert Notifiers(m) == {} && Awake(m) == {};
  }

  /** While it is not quiet, some thread can move on by itself: the mutex is never left behind. */
  lemma SomebodyMoves<T(!new)>(m: Monitor<T>) returns (e: Step<T>)
    requires Inv(m) && !Quiet(m)
    ensures Enabled(m, e) && !e.Call? && !e.Spurious?
  {
    if m.owner.Held? {
      var t := m.owner.tid;
      e := if m.pc[t].Leaving? then Release(t) else Work(t);
    } else {
      var t :| t in m.pc && !m.pc[t].Idle? && !m.pc[t].Sleeping?;
      assert !HasMutex(m.pc[t]);
      if m.pc[t].Entering? || m.pc[t].Waking? {
        e := Acquire(t);
      } else if m.pc[t].NotifyingAll? {
        e := Notify(t, Sleepers(m));
      } else if u :| u in Sleepers(m) {
        e := Notify(t, {u});
      } else {
        e := Notify(t, {});
      }
    }
  }

  // ---- After the close -------------------------------------------------------------------

  /** Once closed, always closed, and nothing is accepted any more. */
  lemma {:induction false} ClosedIsFinal<T(!new)>(m: Monitor<T>, steps: seq<Step<T>>, n: Monitor<T>)
    requires m.closed && Leads(m, steps, n)
    ensures n.closed && n.accepted == m.accepted
    decreases |steps|
  {
    if |steps| == 0 {
    } else {
      ClosedIsFinal(Take(m, steps[0]), steps[1..], n);
    }
  }

  /** The thread is through with a push that was accepted, or on its way out of one. */
  predicate PastPush<T(==)>(p: Pc<T>) {
    p == Leaving(Pushed(true)) || p.NotifyingOne? || p == Idle(Pushed(true))
  }

  /** No push succeeds after the close, unless its thread had put its item in before. */
  lemma {:induction false} NoPushAfterClose<T(!new)>(m: Monitor<T>, steps: seq<Step<T>>, n: Monitor<T>, t: Tid)
    requires m.closed && Leads(m, steps, n)
    requires t in m.pc && !PastPush(m.pc[t])
    ensures t in n.pc && !PastPush(n.pc[t])
    decreases |steps|
  {
    if |steps| == 0 {
    } else {
      var u := Take(m, steps[0]);
      if steps[0].Notify? && t in steps[0].sleepers {
        assert u.pc[t] == Waking;
      }
      NoPushAfterClose(u, steps[1..], n, t);
    }
  }

  // ---- Every execution comes to rest -----------------------------------------------------

  /** An upper bound for the steps that a thread has before it, and lets others take, among `n` threads. */
  function OperationWeight<T>(op: Operation<T>, n: nat): nat {
    match op
    case Push(_) => 7
    case WaitAndPop => 3
    case TryPop => 2
    case Close => 4 * n + 3
  }

  function Weight<T>(p: Pc<T>, n: nat): nat {
    match p
    case Idle(_) => 0
    case Entering(op) => OperationWeight(op, n) + 1
    case Inside(op, _) => OperationWeight(op, n)
    case Taking(_) => 2
    case Sleeping => 0
    case Waking => 4
    case Leaving(outcome) => if outcome == Pushed(true) then 6 else if outcome == Closed then 4 * n + 2 else 1
    case NotifyingOne => 5
    case NotifyingAll => 4 * n + 1
  }

  ghost function Load<T(!new)>(pc: map<Tid, Pc<T>>, n: nat): nat {
    if pc.Keys == {} then 0
    else
      var t :| t in pc.Keys;
      Weight(pc[t], n) + Load(pc - {t}, n)
  }

  lemma {:induction false} LoadPick<T(!new)>(pc: map<Tid, Pc<T>>, n: nat, t: Tid)
    requires t in pc
    ensures Load(pc, n) == Weight(pc[t], n) + Load(pc - {t}, n)
    decreases |pc|
  {
    var u :| u in pc.Keys && Load(pc, n) == Weight(pc[u], n) + Load(pc - {u}, n);
    if u != t {
      LoadPick(pc - {u}, n, t);
      LoadPick(pc - {t}, n, u);
      assert pc - {u} - {t} == pc - {t} - {u};
    }
  }

  lemma LoadGoes<T(!new)>(pc: map<Tid, Pc<T>>, n: nat, t: Tid, p: Pc<T>)
    requires t in pc
    ensures Load(pc[t := p], n) == Load(pc, n) - Weight(pc[t], n) + Weight(p, n)
  {
    LoadPick(pc, n, t);
    LoadPick(pc[t := p], n, t);
    assert pc[t := p] - {t} == pc - {t};
  }

  function Woken<T>(pc: map<Tid, Pc<T>>, sleepers: set<Tid>): map<Tid, Pc<T>> {
    map t | t in pc :: if t in sleepers then Waking else pc[t]
  }

  lemma {:induction false} LoadWoken<T(!new)>(pc: map<Tid, Pc<T>>, n: nat, sleepers: set<Tid>)
    requires sleepers <= pc.Keys
    ensures Load(Woken(pc, sleepers), n) <= Load(pc, n) + 4 * |sleepers|
    decreases |sleepers|
  {
    if sleepers == {} {
      assert Woken(pc, sleepers) == pc;
    } else {
      var t :| t in sleepers;
      var rest := Woken(pc, sleepers - {t});
      assert Woken(pc, sleepers) == rest[t := Waking];
      LoadWoken(pc, n, sleepers - {t});
      LoadGoes(rest, n, t, Waking);
    }
  }

  predicate ByItself<T>(e: Step<T>) {
    !e.Call? && !e.Spurious?
  }

  lemma {:induction false} CardBelow(a: set<Tid>, b: set<Tid>)
    requires a <= b
    ensures |a| <= |b|
  {
    assert a + (b - a) == b;
  }

  lemma NotifyIsWoken<T>(m: Monitor<T>, t: Tid, sleepers: set<Tid>)
    requires Enabled(m, Notify(t, sleepers))
    ensures t !in sleepers && sleepers <= m.pc.Keys && |sleepers| <= |m.pc|
    ensures Take(m, Notify(t, sleepers)).pc
         == Woken(m.pc[t := Idle(if m.pc[t].NotifyingOne? then Pushed(true) else Closed)], sleepers)
  {
    CardBelow(sleepers, m.pc.Keys);
  }

  lemma NotifyLightens<T(!new)>(m: Monitor<T>, t: Tid, sleepers: set<Tid>)
    requires Enabled(m, Notify(t, sleepers))
    ensures Load(Take(m, Notify(t, sleepers)).pc, |m.pc|) < Load(m.pc, |m.pc|)
  {
    hide Load;
    var p := Idle(if m.pc[t].NotifyingOne? then Pushed(true) else Closed);
    NotifyIsWoken(m, t, sleepers);
    LoadGoes(m.pc, |m.pc|, t, p);
    LoadWoken(m.pc[t := p], |m.pc|, sleepers);
  }

  /** Every step that is not a call or a spurious wake brings the threads nearer to rest. */
  lemma StepLightens<T(!new)>(m: Monitor<T>, e: Step<T>)
    requires Enabled(m, e) && ByItself(e)
    ensures Take(m, e).pc.Keys == m.pc.Keys
    ensures Load(Take(m, e).pc, |m.pc|) < Load(m.pc, |m.pc|)
  {
    hide Load;
    if e.Notify? {
      NotifyLightens(m, e.t, e.sleepers);
    } else {
      LoadGoes(m.pc, |m.pc|, e.t, Take(m, e).pc[e.t]);
      assert Take(m, e).pc == m.pc[e.t := Take(m, e).pc[e.t]];
    }
  }

  /** Without calls and spurious wakes an execution has no more steps than the load it starts with. */
  lemma {:induction false} ExecutionsEnd<T(!new)>(m: Monitor<T>, steps: seq<Step<T>>, n: Monitor<T>)
    requires Leads(m, steps, n) && forall i :: 0 <= i < |steps| ==> ByItself(steps[i])
    ensures |m.pc| == |n.pc| && |steps| + Load(n.pc, |m.pc|) <= Load(m.pc, |m.pc|)
    decreases |steps|
  {
    if |steps| == 0 {
    } else {
      StepLightens(m, steps[0]);
      assert Take(m, steps[0]).pc.Keys == m.pc.Keys;
      assert |Take(m, steps[0]).pc| == |m.pc|;
      ExecutionsEnd(Take(m, steps[0]), steps[1..], n);
    }
  }

  /**
   Left alone, the threads come to rest: an execution without calls and spurious wakes is bounded by
   the load it starts with, and when it cannot go on, nobody is under way, and a thread that sleeps
   does so because the queue is open and empty.
   */
  lemma ComesToRest<T(!new)>(m: Monitor<T>, steps: seq<Step<T>>, n: Monitor<T>)
    requires Inv(m) && Leads(m, steps, n) && forall i :: 0 <= i < |steps| ==> ByItself(steps[i])
    ensures |steps| <= Load(m.pc, |m.pc|)
    ensures (forall e: Step<T> :: Enabled(n, e) ==> !ByItself(e)) ==>
              Quiet(n) && (Sleepers(n) != {} ==> !n.closed && n.queue == [])
  {
    ExecutionsEnd(m, steps, n);
    LeadsKeeps(m, steps, n);
    if !Quiet(n) {
      var e := SomebodyMoves(n);
    } else if Sleepers(n) != {} {
      SleepersHaveReason(n);
    }
  }

  // ---- What goes in and what comes out ---------------------------------------------------

  // Where the thread of a step stands before and after it says what the step has put in or taken.

  /** The item that a thread has put in when it goes from `p` to `q`. */
  function PutBy<T>(p: Pc<T>, q: Pc<T>): seq<T> {
    if p.Inside? && p.op.Push? && q.Leaving? && q.outcome == Pushed(true) then [p.op.value] else []
  }

  /** A thread going from `p` to `q` has taken an item. */
  predicate TookBy<T>(p: Pc<T>, q: Pc<T>) {
    (p.Inside? || p.Taking?) && q.Leaving? && (q.outcome == Popped(true) || q.outcome == Tried(true))
  }

  /**
   A step puts in the value of a push that succeeds, takes the front item for a pop that does, and
   else keeps the items.
   */
  lemma StepItems<T>(m: Monitor<T>, e: Step<T>)
    requires Enabled(m, e)
    ensures var n := Take(m, e);
            && e.t in n.pc
            && n.accepted == m.accepted + PutBy(m.pc[e.t], n.pc[e.t])
            && if TookBy(m.pc[e.t], n.pc[e.t])
               then m.queue != [] && n.queue == m.queue[1..] && n.taken == m.taken + [m.queue[0]]
               else n.queue == m.queue + PutBy(m.pc[e.t], n.pc[e.t]) && n.taken == m.taken
  {
    assert m.accepted + [] == m.accepted && m.queue + [] == m.queue;
  }

  /**
   The way of a thread through its call: a push reports success unless the queue is closed, a pop that
   does not wait unless it is empty, a pop that waits unless it is closed and empty, and it goes to
   sleep exactly when the queue is open and empty.
   */
  lemma StepOutcome<T>(m: Monitor<T>, t: Tid)
    requires Enabled(m, Work(t))
    ensures var p, q := m.pc[t], Take(m, Work(t)).pc[t];
            if p.Taking? then q == Leaving(Popped(m.queue != []))
            else match p.op
              case Push(_) => q == Leaving(Pushed(!m.closed))
              case TryPop => q == Leaving(Tried(m.queue != []))
              case WaitAndPop => q == if !m.closed && m.queue == [] then Sleeping else Taking(p.woken)
              case Close => q == Leaving(Closed) && Take(m, Work(t)).closed
  {
  }

  /**
   A thread carries its call to the mutex, and what it leaves with is what the call reports in the
   end, after the thread has notified if it has to.
   */
  lemma StepCarries<T>(m: Monitor<T>, e: Step<T>)
    requires Enabled(m, e) && !e.Work?
    ensures var p, q := m.pc[e.t], Take(m, e).pc[e.t];
            match e
            case Call(_, op) => q == Entering(op)
            case Acquire(_) => q == if p.Entering? then Inside(p.op, false) else Inside(WaitAndPop, true)
            case Release(_) =>
              q == (if p.outcome == Pushed(true) then NotifyingOne
                    else if p.outcome == Closed then NotifyingAll
                    else Idle(p.outcome))
            case Notify(_, _) => q == Idle(if p.NotifyingOne? then Pushed(true) else Closed)
            case Spurious(_) => q == Waking
            case Work(_) => true
  {
  }

  /** The items put in along an execution, by the pushes that succeed, in the order of these. */
  function PutAlong<T>(m: Monitor<T>, steps: seq<Step<T>>): seq<T>
    decreases |steps|
  {
    if |steps| == 0 || !Enabled(m, steps[0]) then []
    else
      var n := Take(m, steps[0]);
      (if steps[0].t in n.pc then PutBy(m.pc[steps[0].t], n.pc[steps[0].t]) else []) + PutAlong(n, steps[1..])
  }

  /** How many pops succeed along an execution. */
  function TakenAlong<T>(m: Monitor<T>, steps: seq<Step<T>>): nat
    decreases |steps|
  {
    if |steps| == 0 || !Enabled(m, steps[0]) then 0
    else
      var n := Take(m, steps[0]);
      (if steps[0].t in n.pc && TookBy(m.pc[steps[0].t], n.pc[steps[0].t]) then 1 else 0) + TakenAlong(n, steps[1..])
  }

  lemma {:induction false} ItemsAlong<T(!new)>(m: Monitor<T>, steps: seq<Step<T>>, n: Monitor<T>)
    requires Leads(m, steps, n)
    ensures n.accepted == m.accepted + PutAlong(m, steps)
    ensures |n.taken| == |m.taken| + TakenAlong(m, steps)
    decreases |steps|
  {
    hide Take, Enabled, PutBy, TookBy;
    if |steps| == 0 {
      assert m.accepted + [] == m.accepted;
    } else {
      StepItems(m, steps[0]);
      ItemsAlong(Take(m, steps[0]), steps[1..], n);
    }
  }

  /**
   In every execution the accepted items are exactly the values of the pushes that report success, in
   that order, and the items taken are as many of them, from the front, as pops report success.
   */
  lemma NothingLost<T(!new)>(threads: set<Tid>, steps: seq<Step<T>>, n: Monitor<T>)
    requires Leads(Start(threads), steps, n)
    ensures n.accepted == PutAlong(Start(threads), steps)
    ensures TakenAlong(Start(threads), steps) <= |PutAlong(Start(threads), steps)|
    ensures n.taken == PutAlong(Start(threads), steps)[..TakenAlong(Start(threads), steps)]
    ensures n.queue == PutAlong(Start(threads), steps)[TakenAlong(Start(threads), steps)..]
  {
    ItemsAlong(Start(threads), steps, n);
    EveryExecution(threads, steps, n);
    assert [] + PutAlong(Start(threads), steps) == PutAlong(Start(threads), steps);
  }

  // ---- The object ------------------------------------------------------------------------

  /**
   The queue as an object, and its operations as one thread runs them while it has the mutex. Each is
   proved to be the step of that thread in the protocol above.
   */
  class Guarded<T(0, !new)> {
    var queue: seq<T>
    var closed: bool
    ghost var accepted: seq<T>
    ghost var taken: seq<T>

    constructor ()
      ensures queue == [] && !closed && accepted == [] && taken == []
    {
      queue, closed, accepted, taken := [], false, [], [];
    }

    /** The object with one thread, the owner of the mutex, at `p`. */
    ghost function Seen(p: Pc<T>): Monitor<T>
      reads this
    {
      Monitor(queue, closed, Held(0), map[0 := p], accepted, taken)
    }

    method Push(value: T) returns (ok: bool)
      modifies this
      ensures ok <==> !old(closed)
      ensures queue == old(queue) + (if ok then [value] else []) && closed == old(closed)
      ensures accepted == old(accepted) + (if ok then [value] else []) && taken == old(taken)
      ensures Seen(Leaving(Pushed(ok))) == Take(old(Seen(Inside(Operation.Push(value), false))), Work(0))
    {
      if closed {
        return false;
      }
      queue := queue + [value];
      accepted := accepted + [value];
      ok := true;
    }

    /** The rest of a wait: the queue is closed, or it has an item. */
    method WaitAndPop() returns (ok: bool, out: T)
      requires closed || queue != []
      modifies this
      ensures ok <==> old(queue) != []
      ensures old(queue) == (if ok then [out] else []) + queue && closed == old(closed)
      ensures taken == old(taken) + (if ok then [out] else []) && accepted == old(accepted)
      ensures !ok ==> closed && queue == []
      ensures Seen(Leaving(Popped(ok))) == Take(old(Seen(Taking(false))), Work(0))
    {
      ok, out := TakeFront();
    }

    method TryPop() returns (ok: bool, out: T)
      modifies this
      ensures ok <==> old(queue) != []
      ensures old(queue) == (if ok then [out] else []) + queue && closed == old(closed)
      ensures taken == old(taken) + (if ok then [out] else []) && accepted == old(accepted)
      ensures Seen(Leaving(Tried(ok))) == Take(old(Seen(Inside(Operation.TryPop, false))), Work(0))
    {
      ok, out := TakeFront();
    }

    method TakeFront() returns (ok: bool, out: T)
      modifies this
      ensures ok <==> old(queue) != []
      ensures closed == old(closed) && accepted == old(accepted)
      ensures old(queue) == (if ok then [out] else []) + queue
      ensures taken == old(taken) + if ok then [out] else []
    {
      out := *;
      if queue == [] {
        return false, out;
      }
      out := queue[0];
      queue := queue[1..];
      taken := taken + [out];
      ok := true;
    }

    method Close()
      modifies this
      ensures closed && queue == old(queue) && accepted == old(accepted) && taken == old(taken)
      ensures Seen(Leaving(Closed)) == Take(old(Seen(Inside(Operation.Close, false))), Work(0))
    {
      closed := true;
    }
  }
}
