/**
 The work-stealing ThreadPool, as a step machine over all interleavings of any number of
 producers, the workers and one stop.

 Each lock section, atomic operation and semaphore operation is one step. A pop is one step
 together with the counter decrement and the slot release made under the same lock. The
 counter is a mathematical integer; the source's is that modulo the word size. A task that
 itself submits tasks acts as a further producer.
 */
module ThreadPool {
  type Task = int

  // ---------- sums over sequences ----------

  function Sum<X>(xs: seq<X>, f: X -> int): int {
    if xs == [] then 0 else f(xs[0]) + Sum(xs[1..], f)
  }

  lemma {:induction false} SumUpdate<X>(xs: seq<X>, i: nat, x: X, f: X -> int)
    requires i < |xs|
    ensures Sum(xs[i := x], f) == Sum(xs, f) - f(xs[i]) + f(x)
  {
    if i == 0 {
      assert xs[i := x][1..] == xs[1..];
    } else {
      assert xs[i := x][1..] == xs[1..][i - 1 := x];
      SumUpdate(xs[1..], i - 1, x, f);
    }
  }

  lemma {:induction false} SumBound<X>(xs: seq<X>, f: X -> int)
    requires forall i :: 0 <= i < |xs| ==> f(xs[i]) >= 0
    ensures Sum(xs, f) >= 0
    ensures forall i :: 0 <= i < |xs| ==> f(xs[i]) <= Sum(xs, f)
  {
    if xs != [] {
      SumBound(xs[1..], f);
      forall i | 0 < i < |xs| ensures f(xs[i]) <= Sum(xs, f) {
        assert xs[1..][i - 1] == xs[i];
      }
    }
  }

  // ---------- state ----------

  /** Where a producer is in run, enqueueTask and enqueueSharded. */
  datatype Producer =
    | Idle
    | Called(task: Task)             // run saw the pool running; before enqueueTask's isRunning
    | Entering(task: Task)           // before waitingProducers_
    | Waiting(task: Task)            // counted as waiting, before the slot
    | Acquired(task: Task)           // slot taken, still counted as waiting
    | Admitted(task: Task)           // before the last isRunning
    | Refusing(task: Task)           // the pool has stopped; the slot is still to be given back
    | Choosing(task: Task)           // before nextWorker_
    | Chosen(task: Task, worker: nat)
    | Pushed(worker: nat, wake: bool) // queue lock released, task not yet counted
    | Signalling(worker: nat)

  /** Where a worker is in runInThread and popSharded. */
  datatype Worker = Top | Popping | Checking | Scanning(i: nat) | Sleeping | Running(task: Task) | Exited

  /** Where stop is: before the flag, after it, with the waiting producers counted, giving permits to the workers. */
  datatype Stop = NotStopped | Flagged | Counted(waiters: int) | Releasing(k: nat, granted: nat)

  datatype State = State(
    queues: seq<seq<Task>>,
    signals: seq<bool>,
    workers: seq<Worker>,
    producers: seq<Producer>,
    bounded: bool,
    limit: nat,
    slots: int,
    queued: int,
    waiting: int,
    nextWorker: nat,
    running: bool,
    stop: Stop,
    submitted: multiset<Task>,
    taken: multiset<Task>,
    refused: multiset<Task>)

  function Len(q: seq<Task>): int {
    |q|
  }

  /** Producers that hold a slot for a task not yet in a queue. */
  function HoldsSlot(p: Producer): int {
    if p.Acquired? || p.Admitted? || p.Refusing? || p.Choosing? || p.Chosen? then 1 else 0
  }

  /** Those of them that will push, whatever happens. */
  function WillPush(p: Producer): int {
    if p.Choosing? || p.Chosen? then 1 else 0
  }

  /** Producers counted in waitingProducers_. */
  function IsWaiting(p: Producer): int {
    if p.Waiting? || p.Acquired? then 1 else 0
  }

  /** Producers between the push and the count. */
  function Uncounted(p: Producer): int {
    if p.Pushed? then 1 else 0
  }

  predicate Holds(p: Producer, task: Task) {
    !(p.Idle? || p.Pushed? || p.Signalling?) && p.task == task
  }

  /** How often a producer holds a task, and how often a queue does. */
  function HandOf(task: Task): Producer -> int {
    (p: Producer) => if Holds(p, task) then 1 else 0
  }

  function CountOf(task: Task): seq<Task> -> int {
    (q: seq<Task>) => multiset(q)[task]
  }

  /** The state after start(numThreads), with the given number of producer threads; a bound is positive. */
  predicate Initial(s: State) {
    && (s.bounded ==> s.limit > 0)
    && |s.queues| == |s.signals| == |s.workers| && |s.queues| > 0
    && (forall i :: 0 <= i < |s.queues| ==> s.queues[i] == [] && s.signals[i] == false && s.workers[i] == Top)
    && (forall p :: 0 <= p < |s.producers| ==> s.producers[p] == Idle)
    && s.slots == s.limit && s.queued == 0 && s.waiting == 0 && s.nextWorker == 0 && s.running && s.stop == NotStopped
    && s.submitted == multiset{} && s.taken == multiset{} && s.refused == multiset{}
  }

  // ---------- steps ----------

  datatype Step =
    | Submit(p: nat, task: Task)
    | Produce(p: nat)                 // the next step of producer p
    | Work(w: nat, locked: bool)      // the next step of worker w; `locked`: the victim's lock was free
    | StopStep

  predicate Enabled(s: State, step: Step) {
    match step
    case Submit(p, _) => p < |s.producers| && s.producers[p] == Idle
    case Produce(p) => p < |s.producers| && s.producers[p] != Idle && (s.producers[p].Waiting? ==> s.slots > 0)
    case Work(w, _) =>
      w < |s.workers| && s.workers[w] != Exited && (s.workers[w] == Sleeping ==> w < |s.signals| && s.signals[w])
    case StopStep => !s.stop.Releasing? || s.stop.k < |s.workers|
  }

  predicate Shaped(s: State) {
    && |s.queues| == |s.signals| == |s.workers| && |s.queues| > 0
    && (forall p :: 0 <= p < |s.producers| ==>
          ((s.producers[p].Chosen? || s.producers[p].Pushed? || s.producers[p].Signalling?) ==>
             s.producers[p].worker < |s.queues|))
  }

  function Apply(s: State, step: Step): State
    requires Shaped(s) && Enabled(s, step)
  {
    match step
    case Submit(p, task) => Submitted(s, p, task)
    case Produce(p) => Produced(s, p)
    case Work(w, locked) => Worked(s, w, locked)
    case StopStep => Stopped(s)
  }

  /** run's own isRunning: refused outright when the pool is stopped. */
  function Submitted(s: State, p: nat, task: Task): State
    requires p < |s.producers|
  {
    var s := s.(submitted := s.submitted + multiset{task});
    if s.running then s.(producers := s.producers[p := Called(task)])
    else s.(refused := s.refused + multiset{task})
  }

  function Shard(k: nat, n: nat): (w: nat)
    requires n > 0
    ensures w < n
  {
    k % n
  }

  function Produced(s: State, p: nat): State
    requires Shaped(s) && p < |s.producers|
  {
    match s.producers[p]
    case Idle => s
    case Called(task) =>
      if !s.running then s.(refused := s.refused + multiset{task}, producers := s.producers[p := Idle])
      else s.(producers := s.producers[p := if s.bounded then Entering(task) else Choosing(task)])
    case Entering(task) => s.(waiting := s.waiting + 1, producers := s.producers[p := Waiting(task)])
    case Waiting(task) => s.(slots := s.slots - 1, producers := s.producers[p := Acquired(task)])
    case Acquired(task) => s.(waiting := s.waiting - 1, producers := s.producers[p := Admitted(task)])
    case Admitted(task) => s.(producers := s.producers[p := if s.running then Choosing(task) else Refusing(task)])
    case Refusing(task) => s.(slots := s.slots + 1, refused := s.refused + multiset{task},
                              producers := s.producers[p := Idle])
    case Choosing(task) =>
      s.(nextWorker := s.nextWorker + 1, producers := s.producers[p := Chosen(task, Shard(s.nextWorker, |s.queues|))])
    case Chosen(task, w) =>
      s.(queues := s.queues[w := s.queues[w] + [task]], producers := s.producers[p := Pushed(w, s.queues[w] == [])])
    case Pushed(w, wake) =>
      s.(queued := s.queued + 1, producers := s.producers[p := if wake then Signalling(w) else Idle])
    case Signalling(w) => s.(signals := s.signals[w := true], producers := s.producers[p := Idle])
  }

  /** A pop under the victim's lock: its result goes to worker w, the counter and the slots follow. */
  function Popped(s: State, w: nat, victim: nat, queue: seq<Task>, task: Task): State
    requires victim < |s.queues| && w < |s.workers|
  {
    s.(queues := s.queues[victim := queue], queued := s.queued - 1,
       slots := if s.bounded then s.slots + 1 else s.slots,
       workers := s.workers[w := Running(task)], taken := s.taken + multiset{task})
  }

  /** What a step of a worker does: it moves on, consuming its signal or not, or it pops a task. */
  datatype Effect = Move(pc: Worker, woken: bool) | Pop(victim: nat, queue: seq<Task>, task: Task)

  /**
   A pop takes an end of a queue. A move consumes the signal only to start over, comes to
   believe a queue empty only when it is, and leaves at the top of the loop, exactly when the
   pool does not run.
   */
  predicate Legal(s: State, w: nat, e: Effect)
    requires Shaped(s) && w < |s.workers|
  {
    match e
    case Pop(v, queue, task) =>
      && v < |s.queues| && s.workers[w] != Top && s.workers[w] != Exited
      && (s.queues[v] == [task] + queue || s.queues[v] == queue + [task])
    case Move(pc, woken) =>
      && (woken ==> pc == Top) && (pc.Scanning? ==> pc.i >= 1)
      && (FoundEmpty(pc) ==> FoundEmpty(s.workers[w]) || s.queues[w] == [])
      && (!s.running && (s.workers[w] == Top || s.workers[w] == Exited) ==> pc == Exited)
      && (pc == Exited ==> s.workers[w] == Exited || (s.workers[w] == Top && !s.running))
  }

  function WorkEffect(s: State, w: nat, locked: bool): (e: Effect)
    requires Shaped(s) && w < |s.workers|
    ensures Legal(s, w, e)
  {
    match s.workers[w]
    case Exited => Move(Exited, false)
    case Top => Move(if s.running then Popping else Exited, false)
    case Popping =>
      var q := s.queues[w];
      if q == [] then Move(Checking, false) else Pop(w, q[1..], q[0])
    case Checking => Move(if s.queued == 0 then Sleeping else Scanning(1), false)
    case Scanning(i) =>
      if i >= |s.queues| then Move(Sleeping, false)
      else
        var v := Shard(w + i, |s.queues|);
        var q := s.queues[v];
        if !locked || q == [] then Move(Scanning(i + 1), false)
        else
          assert q == q[..|q| - 1] + [q[|q| - 1]];
          Pop(v, q[..|q| - 1], q[|q| - 1])
    case Running(_) => Move(Top, false)
    case Sleeping => Move(Top, true)
  }

  function Worked(s: State, w: nat, locked: bool): State
    requires Shaped(s) && w < |s.workers|
  {
    Carried(s, w, WorkEffect(s, w, locked))
  }

  function Carried(s: State, w: nat, e: Effect): State
    requires Shaped(s) && w < |s.workers| && Legal(s, w, e)
  {
    match e
    case Move(pc, woken) =>
      s.(signals := if woken then s.signals[w := false] else s.signals, workers := s.workers[w := pc])
    case Pop(v, queue, task) => Popped(s, w, v, queue, task)
  }

  /** stop: the flag, then permits for the waiting producers, then one signal per worker in turn. */
  function Stopped(s: State): State
    requires Shaped(s) && (s.stop.Releasing? ==> s.stop.k < |s.workers|)
  {
    match s.stop
    case NotStopped => s.(running := false, stop := Flagged)
    case Flagged => s.(waiting := if s.bounded then 0 else s.waiting,
                       stop := if s.bounded then Counted(s.waiting) else Releasing(0, 0))
    case Counted(waiters) =>
      var granted := if waiters > 0 then waiters else 0;
      s.(slots := s.slots + granted, stop := Releasing(0, granted))
    case Releasing(k, granted) => s.(signals := s.signals[k := true], stop := Releasing(k + 1, granted))
  }

  // ---------- invariants ----------

  predicate FoundEmpty(w: Worker) {
    w.Checking? || w.Scanning? || w.Sleeping?
  }

  predicate Wakes(p: Producer, w: nat) {
    p == Pushed(w, true) || p == Signalling(w)
  }

  predicate WakerFor(s: State, w: nat) {
    exists p :: 0 <= p < |s.producers| && Wakes(s.producers[p], w)
  }

  predicate Released(s: State, w: nat) {
    s.stop.Releasing? && w < s.stop.k
  }

  /** A worker that found its queue empty, whose queue is now not empty, has a signal or is about to get one. */
  predicate NoLostWakeup(s: State) {
    forall w :: 0 <= w < |s.workers| && w < |s.queues| && w < |s.signals| ==>
      FoundEmpty(s.workers[w]) && s.queues[w] != [] ==> s.signals[w] || WakerFor(s, w)
  }

  /** A worker released by stop has its permit, or is on its way out. */
  predicate StopReaches(s: State) {
    && (s.stop != NotStopped ==> !s.running)
    && forall w :: 0 <= w < |s.workers| && w < |s.signals| && Released(s, w) ==>
                     s.signals[w] || s.workers[w] == Top || s.workers[w] == Exited
  }

  /** The permits stop has handed out. */
  function Granted(s: State): nat {
    if s.stop.Releasing? then s.stop.granted else 0
  }

  /** Free slots, slots held and queued tasks make up the bound and what stop has added to it. */
  predicate SlotsAddUp(s: State) {
    s.bounded ==>
      && s.slots + Sum(s.producers, HoldsSlot) + Sum(s.queues, Len) == s.limit + Granted(s) && s.slots >= 0
      && Sum(s.producers, WillPush) + Sum(s.queues, Len) <= s.limit && s.limit > 0
  }

  predicate CounterLags(s: State) {
    s.queued + Sum(s.producers, Uncounted) == Sum(s.queues, Len)
  }

  /** Until stop takes it, waitingProducers_ counts the producers at the semaphore. */
  predicate WaitersCounted(s: State) {
    s.stop == NotStopped || s.stop == Flagged ==> s.waiting == Sum(s.producers, IsWaiting)
  }

  /** How often a task is in a producer's hand, in a queue, taken by a worker or refused. */
  function Places(s: State, task: Task): int {
    Sum(s.producers, HandOf(task)) + Sum(s.queues, CountOf(task)) + s.taken[task] + s.refused[task]
  }

  /** Every submission of a task is in exactly one place. */
  ghost predicate Conserved(s: State) {
    forall task: Task :: Places(s, task) == s.submitted[task]
  }

  predicate AtSlots(p: Producer) {
    p.Entering? || p.Waiting? || p.Acquired? || p.Admitted? || p.Refusing?
  }

  /** Nothing is refused before stop, and slots matter only in a bounded pool. */
  predicate RefusedOnlyAfterStop(s: State) {
    && (forall p :: 0 <= p < |s.producers| && AtSlots(s.producers[p]) ==> s.bounded)
    && (s.running ==> s.refused == multiset{}) && (s.running <==> s.stop == NotStopped)
    && (forall p :: 0 <= p < |s.producers| && s.producers[p].Refusing? ==> !s.running)
  }

  /** No worker leaves a running pool, and a scan starts at the next worker. */
  predicate AllAtWork(s: State) {
    forall w :: 0 <= w < |s.workers| ==>
      (s.running ==> s.workers[w] != Exited) && (s.workers[w].Scanning? ==> s.workers[w].i >= 1)
  }

  ghost predicate Inv(s: State) {
    && Shaped(s) && AllAtWork(s) && WaitersCounted(s) && NoLostWakeup(s) && StopReaches(s) && SlotsAddUp(s)
    && CounterLags(s) && Conserved(s)
    && RefusedOnlyAfterStop(s)
  }

  lemma {:induction false} SumZero<X>(xs: seq<X>, f: X -> int)
    requires forall i :: 0 <= i < |xs| ==> f(xs[i]) == 0
    ensures Sum(xs, f) == 0
  {
    if xs != [] {
      forall i | 0 <= i < |xs[1..]| ensures f(xs[1..][i]) == 0 {
        assert xs[1..][i] == xs[i + 1];
      }
      SumZero(xs[1..], f);
    }
  }

  lemma InitialInv(s: State)
    requires Initial(s)
    ensures Inv(s)
  {
    SumZero(s.producers, HoldsSlot);
    SumZero(s.producers, WillPush);
    SumZero(s.producers, IsWaiting);
    SumZero(s.producers, Uncounted);
    SumZero(s.queues, Len);
    forall task: Task ensures Places(s, task) == 0 {
      SumZero(s.producers, HandOf(task));
      SumZero(s.queues, CountOf(task));
    }
  }

  // --- the counts ---

  predicate Counts(s: State) {
    Shaped(s) && SlotsAddUp(s) && CounterLags(s) && RefusedOnlyAfterStop(s)
  }

  lemma MoveProducer(s: State, p: nat, x: Producer)
    requires p < |s.producers|
    ensures Sum(s.producers[p := x], HoldsSlot) ==
            Sum(s.producers, HoldsSlot) - HoldsSlot(s.producers[p]) + HoldsSlot(x)
    ensures Sum(s.producers[p := x], WillPush) ==
            Sum(s.producers, WillPush) - WillPush(s.producers[p]) + WillPush(x)
    ensures Sum(s.producers[p := x], Uncounted) ==
            Sum(s.producers, Uncounted) - Uncounted(s.producers[p]) + Uncounted(x)
  {
    SumUpdate(s.producers, p, x, HoldsSlot);
    SumUpdate(s.producers, p, x, WillPush);
    SumUpdate(s.producers, p, x, Uncounted);
  }

  lemma SubmitCounts(s: State, p: nat, task: Task)
    requires Counts(s) && Enabled(s, Submit(p, task))
    ensures Counts(Submitted(s, p, task))
  {
    MoveProducer(s, p, Submitted(s, p, task).producers[p]);
  }

  lemma PushCounts(s: State, p: nat)
    requires Counts(s) && p < |s.producers| && s.producers[p].Chosen?
    ensures Counts(Produced(s, p))
  {
    var w := s.producers[p].worker;
    MoveProducer(s, p, Produced(s, p).producers[p]);
    SumUpdate(s.queues, w, s.queues[w] + [s.producers[p].task], Len);
  }

  lemma EnterCounts(s: State, p: nat)
    requires Counts(s) && Enabled(s, Produce(p)) && (s.producers[p].Called? || s.producers[p].Entering?)
    ensures Counts(Produced(s, p))
  {
    MoveProducer(s, p, Produced(s, p).producers[p]);
  }

  lemma SlotCounts(s: State, p: nat)
    requires Counts(s) && Enabled(s, Produce(p)) && (s.producers[p].Waiting? || s.producers[p].Refusing?)
    ensures Counts(Produced(s, p))
  {
    MoveProducer(s, p, Produced(s, p).producers[p]);
  }

  lemma AdmitCounts(s: State, p: nat)
    requires Counts(s) && Enabled(s, Produce(p)) && (s.producers[p].Acquired? || s.producers[p].Admitted?)
    ensures Counts(Produced(s, p))
  {
    MoveProducer(s, p, Produced(s, p).producers[p]);
    PushersHold(Produced(s, p).producers);
  }

  /** Who will push holds a slot. */
  lemma {:induction false} PushersHold(ps: seq<Producer>)
    ensures Sum(ps, WillPush) <= Sum(ps, HoldsSlot)
  {
    if ps != [] {
      PushersHold(ps[1..]);
    }
  }

  lemma RestCounts(s: State, p: nat)
    requires Counts(s) && Enabled(s, Produce(p))
    requires s.producers[p].Choosing? || s.producers[p].Pushed? || s.producers[p].Signalling?
    ensures Counts(Produced(s, p))
  {
    MoveProducer(s, p, Produced(s, p).producers[p]);
  }

  lemma ProduceCounts(s: State, p: nat)
    requires Counts(s) && Enabled(s, Produce(p))
    ensures Counts(Produced(s, p))
  {
    var x := s.producers[p];
    if x.Chosen? {
      PushCounts(s, p);
    } else if x.Called? || x.Entering? {
      EnterCounts(s, p);
    } else if x.Waiting? || x.Refusing? {
      SlotCounts(s, p);
    } else if x.Acquired? || x.Admitted? {
      AdmitCounts(s, p);
    } else {
      RestCounts(s, p);
    }
  }

  lemma WorkCounts(s: State, w: nat, e: Effect)
    requires Counts(s) && w < |s.workers| && Legal(s, w, e)
    ensures Counts(Carried(s, w, e))
  {
    if e.Pop? {
      SumUpdate(s.queues, e.victim, e.queue, Len);
    }
  }

  // --- the places ---

  lemma MoveTask(s: State, t: State, p: nat, task: Task)
    requires p < |s.producers| == |t.producers| && t.producers == s.producers[p := t.producers[p]]
    ensures Sum(t.producers, HandOf(task)) ==
            Sum(s.producers, HandOf(task)) - HandOf(task)(s.producers[p]) + HandOf(task)(t.producers[p])
  {
    SumUpdate(s.producers, p, t.producers[p], HandOf(task));
  }

  lemma SubmitPlaces(s: State, p: nat, task: Task)
    requires Conserved(s) && Enabled(s, Submit(p, task))
    ensures Conserved(Submitted(s, p, task))
  {
    var t := Submitted(s, p, task);
    forall x: Task ensures Places(t, x) == t.submitted[x] {
      assert Places(s, x) == s.submitted[x];
      MoveTask(s, t, p, x);
    }
  }

  lemma PushPlaces(s: State, p: nat, task: Task)
    requires Shaped(s) && p < |s.producers| && s.producers[p].Chosen?
    ensures Places(Produced(s, p), task) == Places(s, task)
  {
    var t := Produced(s, p);
    var w := s.producers[p].worker;
    MoveTask(s, t, p, task);
    SumUpdate(s.queues, w, t.queues[w], CountOf(task));
  }

  lemma OtherPlaces(s: State, p: nat, task: Task)
    requires Shaped(s) && p < |s.producers| && !s.producers[p].Chosen?
    ensures Places(Produced(s, p), task) == Places(s, task)
  {
    var t := Produced(s, p);
    HandedOn(s, p, task);
    MoveTask(s, t, p, task);
  }

  /** A producer keeps its task in hand until it pushes it or has it refused. */
  lemma HandedOn(s: State, p: nat, task: Task)
    requires Shaped(s) && p < |s.producers| && !s.producers[p].Chosen?
    ensures var t := Produced(s, p);
            && |t.producers| == |s.producers| && t.producers == s.producers[p := t.producers[p]]
            && t.queues == s.queues && t.taken == s.taken
            && HandOf(task)(t.producers[p]) + t.refused[task] == HandOf(task)(s.producers[p]) + s.refused[task]
  {
  }

  lemma ProducePlaces(s: State, p: nat)
    requires Shaped(s) && Conserved(s) && Enabled(s, Produce(p))
    ensures Conserved(Produced(s, p))
  {
    var t := Produced(s, p);
    assert t.submitted == s.submitted;
    forall x: Task ensures Places(t, x) == t.submitted[x] {
      if s.producers[p].Chosen? {
        PushPlaces(s, p, x);
      } else {
        OtherPlaces(s, p, x);
      }
    }
  }

  lemma PopPlaces(s: State, w: nat, v: nat, queue: seq<Task>, task: Task)
    requires Conserved(s) && v < |s.queues| && w < |s.workers|
    requires s.queues[v] == [task] + queue || s.queues[v] == queue + [task]
    ensures Conserved(Popped(s, w, v, queue, task))
  {
    var t := Popped(s, w, v, queue, task);
    forall x: Task ensures Places(t, x) == t.submitted[x] {
      assert Places(s, x) == s.submitted[x];
      SumUpdate(s.queues, v, queue, CountOf(x));
    }
  }

  lemma WorkPlaces(s: State, w: nat, e: Effect)
    requires Shaped(s) && Conserved(s) && w < |s.workers| && Legal(s, w, e)
    ensures Conserved(Carried(s, w, e))
  {
    if e.Pop? {
      PopPlaces(s, w, e.victim, e.queue, e.task);
    } else {
      var t := Carried(s, w, e);
      forall x: Task ensures Places(t, x) == t.submitted[x] {
        assert Places(s, x) == s.submitted[x];
      }
    }
  }

  // --- the wake-ups ---

  predicate Wakeups(s: State) {
    Shaped(s) && NoLostWakeup(s) && StopReaches(s)
  }

  /** A state with the same queues, signals and workers, and no fewer wakers, loses no wake-up. */
  lemma WakersStay(s: State, t: State)
    requires Wakeups(s) && t.queues == s.queues && t.signals == s.signals && t.workers == s.workers
    requires |t.producers| == |s.producers|
    requires forall p, w :: 0 <= p < |s.producers| && Wakes(s.producers[p], w) ==> Wakes(t.producers[p], w)
    ensures NoLostWakeup(t)
  {
    forall w | 0 <= w < |t.workers| && FoundEmpty(t.workers[w]) && t.queues[w] != []
      ensures t.signals[w] || WakerFor(t, w)
    {
      if !s.signals[w] {
        var k :| 0 <= k < |s.producers| && Wakes(s.producers[k], w);
        assert Wakes(t.producers[k], w);
      }
    }
  }

  lemma PushWakes(s: State, p: nat)
    requires Wakeups(s) && Enabled(s, Produce(p)) && s.producers[p].Chosen?
    ensures NoLostWakeup(Produced(s, p))
  {
    var t := Produced(s, p);
    forall w | 0 <= w < |t.workers| && FoundEmpty(t.workers[w]) && t.queues[w] != []
      ensures t.signals[w] || WakerFor(t, w)
    {
      if s.queues[w] == [] {
        assert Wakes(t.producers[p], w);
      } else if !s.signals[w] {
        var k :| 0 <= k < |s.producers| && Wakes(s.producers[k], w);
        assert k != p && Wakes(t.producers[k], w);
      }
    }
  }

  lemma SignalWakes(s: State, p: nat)
    requires Wakeups(s) && Enabled(s, Produce(p)) && s.producers[p].Signalling?
    ensures NoLostWakeup(Produced(s, p))
  {
    var t := Produced(s, p);
    forall w | 0 <= w < |t.workers| && FoundEmpty(t.workers[w]) && t.queues[w] != []
      ensures t.signals[w] || WakerFor(t, w)
    {
      if w != s.producers[p].worker && !s.signals[w] {
        var k :| 0 <= k < |s.producers| && Wakes(s.producers[k], w);
        assert k != p && Wakes(t.producers[k], w);
      }
    }
  }

  lemma ProduceWakes(s: State, p: nat)
    requires Wakeups(s) && Enabled(s, Produce(p))
    ensures NoLostWakeup(Produced(s, p)) && StopReaches(Produced(s, p))
  {
    if s.producers[p].Chosen? {
      PushWakes(s, p);
    } else if s.producers[p].Signalling? {
      SignalWakes(s, p);
    } else {
      WakersStay(s, Produced(s, p));
    }
  }

  lemma WorkWakes(s: State, w: nat, e: Effect)
    requires Wakeups(s) && w < |s.workers| && Legal(s, w, e)
    ensures NoLostWakeup(Carried(s, w, e)) && StopReaches(Carried(s, w, e))
  {
    var t := Carried(s, w, e);
    assert t.producers == s.producers;
    forall v | 0 <= v < |t.workers| && FoundEmpty(t.workers[v]) && t.queues[v] != []
      ensures t.signals[v] || WakerFor(t, v)
    {
      assert FoundEmpty(s.workers[v]) && s.queues[v] != [] && t.signals[v] == s.signals[v];
      assert WakerFor(s, v) ==> WakerFor(t, v);
    }
  }

  lemma StopInv(s: State)
    requires Inv(s) && Enabled(s, StopStep)
    ensures Inv(Stopped(s))
  {
    var t := Stopped(s);
    forall v | 0 <= v < |t.workers| && FoundEmpty(t.workers[v]) && t.queues[v] != []
      ensures t.signals[v] || WakerFor(t, v)
    {
      assert t.producers == s.producers;
      assert WakerFor(s, v) ==> WakerFor(t, v);
    }
    forall x: Task ensures Places(t, x) == t.submitted[x] {
      assert Places(s, x) == s.submitted[x];
    }
  }

  lemma SubmitWaiters(s: State, p: nat, task: Task)
    requires WaitersCounted(s) && Enabled(s, Submit(p, task))
    ensures WaitersCounted(Submitted(s, p, task))
  {
    SumUpdate(s.producers, p, Submitted(s, p, task).producers[p], IsWaiting);
  }

  lemma ProduceWaiters(s: State, p: nat)
    requires Shaped(s) && WaitersCounted(s) && Enabled(s, Produce(p))
    ensures WaitersCounted(Produced(s, p))
  {
    HandedOnOrPushed(s, p);
    SumUpdate(s.producers, p, Produced(s, p).producers[p], IsWaiting);
  }

  lemma HandedOnOrPushed(s: State, p: nat)
    requires Shaped(s) && Enabled(s, Produce(p))
    ensures var t := Produced(s, p);
            && |t.producers| == |s.producers| && t.producers == s.producers[p := t.producers[p]] && t.stop == s.stop
            && t.waiting - s.waiting == IsWaiting(t.producers[p]) - IsWaiting(s.producers[p])
  {
  }

  lemma SubmitInv(s: State, p: nat, task: Task)
    requires Inv(s) && Enabled(s, Submit(p, task))
    ensures Inv(Submitted(s, p, task))
  {
    SubmitWaiters(s, p, task);
    SubmitCounts(s, p, task);
    SubmitPlaces(s, p, task);
    WakersStay(s, Submitted(s, p, task));
  }

  lemma ProduceAtWork(s: State, p: nat)
    requires Shaped(s) && AllAtWork(s) && Enabled(s, Produce(p))
    ensures AllAtWork(Produced(s, p))
  {
    var t := Produced(s, p);
    assert t.workers == s.workers && t.running == s.running;
  }

  lemma ProduceInv(s: State, p: nat)
    requires Inv(s) && Enabled(s, Produce(p))
    ensures Inv(Produced(s, p))
  {
    ProduceAtWork(s, p);
    ProduceWaiters(s, p);
    ProduceCounts(s, p);
    ProducePlaces(s, p);
    ProduceWakes(s, p);
  }

  lemma WorkInv(s: State, w: nat, e: Effect)
    requires Inv(s) && w < |s.workers| && s.workers[w] != Exited && Legal(s, w, e)
    ensures Inv(Carried(s, w, e))
  {
    WorkCounts(s, w, e);
    WorkPlaces(s, w, e);
    WorkWakes(s, w, e);
  }

  lemma StepInv(s: State, step: Step)
    requires Inv(s) && Enabled(s, step)
    ensures Inv(Apply(s, step))
  {
    match step
    case Submit(p, task) => SubmitInv(s, p, task);
    case Produce(p) => ProduceInv(s, p);
    case Work(w, locked) => WorkInv(s, w, WorkEffect(s, w, locked));
    case StopStep => StopInv(s);
  }

  // ---------- every run ----------

  predicate IsRun(s: State, steps: seq<Step>)
    decreases |steps|
  {
    steps == [] || (Shaped(s) && Enabled(s, steps[0]) && IsRun(Apply(s, steps[0]), steps[1..]))
  }

  function After(s: State, steps: seq<Step>): State
    requires IsRun(s, steps)
    decreases |steps|
  {
    if steps == [] then s else After(Apply(s, steps[0]), steps[1..])
  }

  lemma {:induction false} EveryRun(s: State, steps: seq<Step>)
    requires Inv(s) && IsRun(s, steps)
    ensures Inv(After(s, steps))
    decreases |steps|
  {
    if steps != [] {
      StepInv(s, steps[0]);
      EveryRun(Apply(s, steps[0]), steps[1..]);
    }
  }

  /**
   In every reachable state of a bounded pool the queues respect the bound, and free slots,
   slots held by producers and queued tasks make it up, with the permits of stop once it has
   handed them out. queuedTasks_ is short by exactly what was pushed and not yet counted.
   */
  lemma QueuesBounded(s: State, steps: seq<Step>)
    requires Initial(s) && IsRun(s, steps)
    ensures var t := After(s, steps);
            && (s.bounded ==>
                  && t.slots + Sum(t.producers, HoldsSlot) + Sum(t.queues, Len) == s.limit + Granted(t)
                  && 0 <= t.slots && Sum(t.queues, Len) <= s.limit && (t.running ==> Granted(t) == 0))
            && t.queued + Sum(t.producers, Uncounted) == Sum(t.queues, Len)
  {
    InitialInv(s);
    EveryRun(s, steps);
    ConstantsStay(s, steps);
    SumBound(After(s, steps).producers, WillPush);
  }

  lemma ConstantStep(s: State, step: Step)
    requires Shaped(s) && Enabled(s, step)
    ensures Apply(s, step).bounded == s.bounded && Apply(s, step).limit == s.limit
  {
  }

  lemma {:induction false} ConstantsStay(s: State, steps: seq<Step>)
    requires IsRun(s, steps)
    ensures After(s, steps).bounded == s.bounded && After(s, steps).limit == s.limit
    decreases |steps|
  {
    if steps != [] {
      ConstantStep(s, steps[0]);
      ConstantsStay(Apply(s, steps[0]), steps[1..]);
    }
  }

  /**
   In every reachable state, a worker that found its queue empty and is checking, scanning or
   asleep, while that queue is not empty, has a permit or a producer about to give it one.
   */
  lemma WakeupNotLost(s: State, steps: seq<Step>, w: nat)
    requires Initial(s) && IsRun(s, steps) && w < |After(s, steps).workers|
    ensures var t := After(s, steps);
            |t.queues| == |t.signals| == |t.workers|
            && (FoundEmpty(t.workers[w]) && t.queues[w] != [] ==> t.signals[w] || WakerFor(t, w))
  {
    InitialInv(s);
    EveryRun(s, steps);
  }

  lemma ReleasedStays(s: State, step: Step, w: nat)
    requires Shaped(s) && Enabled(s, step) && Released(s, w)
    ensures Released(Apply(s, step), w) && |Apply(s, step).workers| == |s.workers|
  {
  }

  /** Once stop has released a worker, that worker is never blocked without a permit, in any continuation. */
  lemma {:induction false} ReleasedForGood(s: State, steps: seq<Step>, w: nat)
    requires Inv(s) && IsRun(s, steps) && w < |s.workers| && Released(s, w)
    ensures var t := After(s, steps);
            |t.workers| == |s.workers| == |t.signals| && Released(t, w)
            && (t.workers[w] == Sleeping ==> t.signals[w])
    decreases |steps|
  {
    if steps != [] {
      StepInv(s, steps[0]);
      ReleasedStays(s, steps[0], w);
      ReleasedForGood(Apply(s, steps[0]), steps[1..], w);
    }
  }

  /** Tasks with distinct names: each one submitted is in exactly one place, and taken at most once. */
  lemma ExactlyOnePlace(s: State, steps: seq<Step>, task: Task)
    requires Initial(s) && IsRun(s, steps) && After(s, steps).submitted[task] == 1
    ensures Places(After(s, steps), task) == 1
    ensures After(s, steps).running ==> After(s, steps).refused[task] == 0
  {
    InitialInv(s);
    EveryRun(s, steps);
  }

  /** All producers idle and all workers asleep without a permit. */
  predicate Quiescent(s: State) {
    && (forall p :: 0 <= p < |s.producers| ==> s.producers[p] == Idle)
    && (forall w :: 0 <= w < |s.workers| && w < |s.signals| ==> s.workers[w] == Sleeping && !s.signals[w])
  }

  lemma QuiescentIsEmpty(t: State)
    requires Inv(t) && Quiescent(t)
    ensures forall w :: 0 <= w < |t.queues| ==> t.queues[w] == []
  {
    forall w | 0 <= w < |t.queues| ensures t.queues[w] == [] {
      assert t.workers[w] == Sleeping && !t.signals[w];
      assert FoundEmpty(t.workers[w]) && !WakerFor(t, w);
    }
  }

  lemma QuiescentAccounts(t: State, task: Task)
    requires Inv(t) && Quiescent(t)
    ensures t.submitted[task] == t.taken[task] + t.refused[task]
  {
    QuiescentIsEmpty(t);
    SumZero(t.producers, HandOf(task));
    SumZero(t.queues, CountOf(task));
    assert Places(t, task) == t.submitted[task];
  }

  /**
   Quiescence: in every reachable state with all producers idle and all workers asleep without
   a permit, no queue holds anything, and everything submitted was taken or refused.
   */
  lemma NothingLeftBehind(s: State, steps: seq<Step>)
    requires Initial(s) && IsRun(s, steps) && Quiescent(After(s, steps))
    ensures var t := After(s, steps);
            && (forall w :: 0 <= w < |t.queues| ==> t.queues[w] == [])
            && t.submitted == t.taken + t.refused
            && (t.running ==> t.submitted == t.taken)
  {
    InitialInv(s);
    EveryRun(s, steps);
    var t := After(s, steps);
    QuiescentIsEmpty(t);
    forall task: Task ensures t.submitted[task] == (t.taken + t.refused)[task] {
      QuiescentAccounts(t, task);
    }
    assert t.submitted == t.taken + t.refused;
  }
}
