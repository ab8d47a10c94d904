/**
 That the ThreadPool gets its work done: how tasks are taken, that producers, workers and stop
 never go on for ever by themselves, and where they come to rest.
 */
module PoolProgress {
  import opened ThreadPool

  // ---------- what is taken ----------

  lemma Runs(s: State, step: Step)
    requires Shaped(s) && Enabled(s, step)
    ensures IsRun(s, [step]) && After(s, [step]) == Apply(s, step)
  {
    assert [step][1..] == [];
  }

  lemma RunsTwo(s: State, a: Step, b: Step)
    requires Shaped(s) && Enabled(s, a) && Shaped(Apply(s, a)) && Enabled(Apply(s, a), b)
    ensures IsRun(s, [a, b]) && After(s, [a, b]) == Apply(Apply(s, a), b)
  {
    Runs(Apply(s, a), b);
    assert [a, b][1..] == [b];
  }

  /** A worker takes the first task of its own queue, whatever the locks. */
  lemma TakesOwnFirst(s: State, w: nat, x: bool, y: bool)
    requires Inv(s) && s.running && w < |s.workers| && s.workers[w] == Top && s.queues[w] != []
    ensures var steps := [Work(w, x), Work(w, y)];
            && IsRun(s, steps)
            && var t := After(s, steps);
               && t.workers == s.workers[w := Running(s.queues[w][0])] && t.queues == s.queues[w := s.queues[w][1..]]
               && t.taken == s.taken + multiset{s.queues[w][0]} && t.signals == s.signals
  {
    StepInv(s, Work(w, x));
    RunsTwo(s, Work(w, x), Work(w, y));
  }

  /** The i-th worker after w, going round. */
  function Neighbour(w: nat, i: nat, n: nat): nat
    requires n > 0
  {
    (w + i) % n
  }

  function Times(step: Step, n: nat): (r: seq<Step>)
    ensures |r| == n && forall i :: 0 <= i < n ==> r[i] == step
  {
    seq(n, _ => step)
  }

  lemma TimesMore(step: Step, n: nat)
    requires n > 0
    ensures Times(step, n) == [step] + Times(step, n - 1)
  {
  }

  /** Worker w with a new place, and one queue changed. */
  predicate TookFrom(s: State, t: State, w: nat, pc: Worker, v: nat, queue: seq<Task>) {
    && w < |s.workers| && v < |s.queues| && Shaped(t)
    && t.workers == s.workers[w := pc] && t.queues == s.queues[v := queue]
  }

  lemma OneLook(s: State, w: nat, i: nat)
    requires Shaped(s) && w < |s.workers| && s.workers[w] == Scanning(i) && i < |s.queues|
    ensures var v, t := Neighbour(w, i, |s.queues|), Apply(s, Work(w, true));
            if s.queues[v] == [] then TookFrom(s, t, w, Scanning(i + 1), v, [])
            else
              var last := |s.queues[v]| - 1;
              TookFrom(s, t, w, Running(s.queues[v][last]), v, s.queues[v][..last])
  {
    var v := Shard(w + i, |s.queues|);
    assert s.queues[v] == [] ==> s.queues[v := []] == s.queues;
  }

  /** Scanning on to the first queue that has something takes the last task of it. */
  lemma {:induction false} StealsLast(s: State, w: nat, i: nat, d: nat)
    requires Shaped(s) && w < |s.workers| && s.workers[w] == Scanning(i) && i <= d < |s.queues|
    requires s.queues[Neighbour(w, d, |s.queues|)] != []
    requires forall k :: i <= k < d ==> s.queues[Neighbour(w, k, |s.queues|)] == []
    ensures var steps := Times(Work(w, true), d - i + 1);
            var v := Neighbour(w, d, |s.queues|);
            var last := |s.queues[v]| - 1;
            IsRun(s, steps) && TookFrom(s, After(s, steps), w, Running(s.queues[v][last]), v, s.queues[v][..last])
    decreases d - i
  {
    var step := Work(w, true);
    OneLook(s, w, i);
    TimesMore(step, d - i + 1);
    if i < d {
      LooksOn(s, w, i, d);
    }
    Preceded(s, step, Times(step, d - i));
  }

  lemma LooksOn(s: State, w: nat, i: nat, d: nat)
    requires Shaped(s) && w < |s.workers| && s.workers[w] == Scanning(i) && i < d < |s.queues|
    requires s.queues[Neighbour(w, d, |s.queues|)] != []
    requires forall k :: i <= k < d ==> s.queues[Neighbour(w, k, |s.queues|)] == []
    requires TookFrom(s, Apply(s, Work(w, true)), w, Scanning(i + 1), Neighbour(w, i, |s.queues|), [])
    ensures var t, steps := Apply(s, Work(w, true)), Times(Work(w, true), d - i);
            var v := Neighbour(w, d, |s.queues|);
            var last := |s.queues[v]| - 1;
            IsRun(t, steps) && TookFrom(s, After(t, steps), w, Running(s.queues[v][last]), v, s.queues[v][..last])
    decreases d - i, 0
  {
    var t := Apply(s, Work(w, true));
    assert t.queues == s.queues;
    StealsLast(t, w, i + 1, d);
  }

  lemma StartsScan(s: State, w: nat)
    requires Shaped(s) && w < |s.workers| && s.workers[w] == Checking && s.queued != 0
    ensures Apply(s, Work(w, true)) == s.(workers := s.workers[w := Scanning(1)])
  {
  }

  lemma Preceded(s: State, step: Step, steps: seq<Step>)
    requires Shaped(s) && Enabled(s, step) && IsRun(Apply(s, step), steps)
    ensures IsRun(s, [step] + steps) && After(s, [step] + steps) == After(Apply(s, step), steps)
  {
    assert ([step] + steps)[1..] == steps;
  }

  /**
   An idle worker with an empty queue, while tasks are counted, steals the last task of the
   nearest queue after its own that has one, if no lock is held.
   */
  lemma StealsFromNearest(s: State, w: nat, d: nat)
    requires Shaped(s) && w < |s.workers| && s.workers[w] == Checking && s.queued != 0 && 1 <= d < |s.queues|
    requires s.queues[Neighbour(w, d, |s.queues|)] != []
    requires forall k :: 1 <= k < d ==> s.queues[Neighbour(w, k, |s.queues|)] == []
    ensures var steps := [Work(w, true)] + Times(Work(w, true), d);
            var v := Neighbour(w, d, |s.queues|);
            var last := |s.queues[v]| - 1;
            IsRun(s, steps) && TookFrom(s, After(s, steps), w, Running(s.queues[v][last]), v, s.queues[v][..last])
  {
    var t := s.(workers := s.workers[w := Scanning(1)]);
    StartsScan(s, w);
    ScanFrom(s, t, w, d);
    Preceded(s, Work(w, true), Times(Work(w, true), d));
  }

  lemma ScanFrom(s: State, t: State, w: nat, d: nat)
    requires Shaped(s) && w < |s.workers| && t == s.(workers := s.workers[w := Scanning(1)]) && 1 <= d < |s.queues|
    requires s.queues[Neighbour(w, d, |s.queues|)] != []
    requires forall k :: 1 <= k < d ==> s.queues[Neighbour(w, k, |s.queues|)] == []
    ensures var v := Neighbour(w, d, |s.queues|);
            var last := |s.queues[v]| - 1;
            && IsRun(t, Times(Work(w, true), d))
            && TookFrom(s, After(t, Times(Work(w, true), d)), w, Running(s.queues[v][last]), v, s.queues[v][..last])
  {
    StealsLast(t, w, 1, d);
  }

  /** A pushed task is the last of its queue, and the producer will signal exactly if it is the only one. */
  lemma PushesLast(s: State, p: nat, task: Task, w: nat)
    requires Shaped(s) && p < |s.producers| && s.producers[p] == Chosen(task, w)
    ensures var t := Apply(s, Produce(p));
            && t.queues == s.queues[w := s.queues[w] + [task]]
            && t.producers == s.producers[p := Pushed(w, s.queues[w] == [])] && t.signals == s.signals
  {
  }

  /** Then it is counted, and the signal given or not. */
  lemma CountsAndSignals(s: State, p: nat, w: nat, wake: bool)
    requires Shaped(s) && p < |s.producers| && s.producers[p] == Pushed(w, wake)
    ensures var t := Apply(s, Produce(p));
            && t.queued == s.queued + 1 && t.signals == s.signals
            && (!wake ==> t.producers == s.producers[p := Idle])
            && (wake ==> Shaped(t) && Apply(t, Produce(p)).signals == s.signals[w := true]
                         && Apply(t, Produce(p)).producers == s.producers[p := Idle])
  {
    assert s.producers[p := Signalling(w)][p := Idle] == s.producers[p := Idle];
  }

  // ---------- after the flag ----------

  /** How many tasks a worker of a stopped pool may still take: one, if it has passed the test of the flag. */
  function MayTake(w: Worker): nat {
    if w.Popping? || w.Checking? || w.Scanning? then 1 else 0
  }

  function TakesOf(s: State, steps: seq<Step>, w: nat): nat
    requires IsRun(s, steps)
    decreases |steps|
  {
    if steps == [] then 0
    else
      (if steps[0].Work? && steps[0].w == w && WorkEffect(s, w, steps[0].locked).Pop? then 1 else 0)
      + TakesOf(Apply(s, steps[0]), steps[1..], w)
  }

  lemma TakesLess(s: State, step: Step, w: nat)
    requires Shaped(s) && Enabled(s, step) && !s.running && s.stop != NotStopped && w < |s.workers|
    ensures var t := Apply(s, step);
            && !t.running && t.stop != NotStopped && |t.workers| == |s.workers|
            && (if step.Work? && step.w == w && WorkEffect(s, w, step.locked).Pop? then 1 else 0)
               + MayTake(t.workers[w])
               <= MayTake(s.workers[w])
  {
  }

  /**
   After the flag, every worker takes at most one more task, and only if it had passed the test of
   the flag before.
   */
  lemma {:induction false} TakesAtMostOneMore(s: State, steps: seq<Step>, w: nat)
    requires IsRun(s, steps) && !s.running && s.stop != NotStopped && w < |s.workers|
    ensures TakesOf(s, steps, w) <= MayTake(s.workers[w]) <= 1
    decreases |steps|
  {
    if steps != [] {
      TakesLess(s, steps[0], w);
      TakesAtMostOneMore(Apply(s, steps[0]), steps[1..], w);
    }
  }

  // ---------- one worker, in order ----------

  /** What a step puts into queue 0 of a pool with one worker, and what it takes out. */
  function Put(s: State, step: Step): seq<Task> {
    if step.Produce? && step.p < |s.producers| && s.producers[step.p].Chosen? then [s.producers[step.p].task] else []
  }

  function Took(s: State, step: Step): seq<Task>
    requires Shaped(s) && Enabled(s, step)
  {
    if step.Work? && Apply(s, step).taken != s.taken && Apply(s, step).workers[step.w].Running?
    then [Apply(s, step).workers[step.w].task] else []
  }

  function Puts(s: State, steps: seq<Step>): seq<Task>
    requires IsRun(s, steps)
    decreases |steps|
  {
    if steps == [] then [] else Put(s, steps[0]) + Puts(Apply(s, steps[0]), steps[1..])
  }

  function Takes(s: State, steps: seq<Step>): seq<Task>
    requires IsRun(s, steps)
    decreases |steps|
  {
    if steps == [] then [] else Took(s, steps[0]) + Takes(Apply(s, steps[0]), steps[1..])
  }

  lemma TookOne(s: State, task: Task)
    ensures s.taken + multiset{task} != s.taken
  {
    assert (s.taken + multiset{task})[task] == s.taken[task] + 1;
  }

  lemma PopTook(s: State, w: nat, locked: bool, v: nat, queue: seq<Task>, task: Task)
    requires Shaped(s) && |s.queues| == 1 && Enabled(s, Work(w, locked))
    requires WorkEffect(s, w, locked) == Pop(v, queue, task) && s.queues[0] == [task] + queue
    ensures Took(s, Work(w, locked)) == [task] && Apply(s, Work(w, locked)).queues == [queue]
  {
    TookOne(s, task);
    assert s.queues[v := queue] == [queue];
  }

  lemma WorkTook(s: State, w: nat, locked: bool)
    requires Shaped(s) && AllAtWork(s) && |s.queues| == 1 && Enabled(s, Work(w, locked))
    ensures var t := Apply(s, Work(w, locked));
            |t.queues| == 1 && Took(s, Work(w, locked)) + t.queues[0] == s.queues[0]
  {
    var e := WorkEffect(s, w, locked);
    if e.Pop? {
      assert w == 0 && s.workers[0] == Popping;
      PopTook(s, w, locked, e.victim, e.queue, e.task);
    } else {
      assert Apply(s, Work(w, locked)).taken == s.taken;
    }
  }

  lemma ProducePut(s: State, p: nat)
    requires Shaped(s) && |s.queues| == 1 && Enabled(s, Produce(p))
    ensures var t := Apply(s, Produce(p)); |t.queues| == 1 && t.queues[0] == s.queues[0] + Put(s, Produce(p))
  {
  }

  lemma PutOrTook(s: State, step: Step)
    requires Shaped(s) && AllAtWork(s) && Enabled(s, step) && |s.queues| == 1
    ensures var t := Apply(s, step);
            |t.queues| == 1 && Took(s, step) + t.queues[0] == s.queues[0] + Put(s, step)
  {
    match step
    case Work(w, locked) => WorkTook(s, w, locked);
    case Produce(p) => ProducePut(s, p);
    case _ =>
  }

  /** With one worker, what was taken and then what is queued are what was pushed, in order. */
  lemma {:induction false} OneWorkerInOrder(s: State, steps: seq<Step>)
    requires Inv(s) && IsRun(s, steps) && |s.queues| == 1
    ensures |After(s, steps).queues| == 1
    ensures Takes(s, steps) + After(s, steps).queues[0] == s.queues[0] + Puts(s, steps)
    decreases |steps|
  {
    if steps != [] {
      var t := Apply(s, steps[0]);
      StepInv(s, steps[0]);
      PutOrTook(s, steps[0]);
      OneWorkerInOrder(t, steps[1..]);
      Regroup(Took(s, steps[0]), Takes(t, steps[1..]), After(t, steps[1..]).queues[0], t.queues[0], Puts(t, steps[1..]),
              s.queues[0], Put(s, steps[0]));
    }
  }

  lemma Regroup(took: seq<Task>, takes: seq<Task>, last: seq<Task>, mid: seq<Task>, puts: seq<Task>, first: seq<Task>,
                put: seq<Task>)
    requires takes + last == mid + puts && took + mid == first + put
    ensures took + takes + last == first + (put + puts)
  {
    assert took + takes + last == took + (takes + last) == took + mid + puts == first + put + puts;
  }

  predicate Picks(k: nat, i: nat, n: nat, w: nat)
    requires n > 0
  {
    Shard(k + i, n) == w
  }

  /** Of as many picks in a row as there are workers, each worker is picked by one. */
  lemma EveryWorkerInTurn(k: nat, n: nat, w: nat)
    requires w < n
    ensures exists i :: 0 <= i < n && Picks(k, i, n, w)
  {
    var r, q := k % n, k / n;
    assert k == n * q + r;
    if w >= r {
      RemainderOf(q, n, w);
      assert Picks(k, w - r, n, w);
    } else {
      RemainderOf(q + 1, n, w);
      assert n * (q + 1) == n * q + n;
      assert Picks(k, w - r + n, n, w);
    }
  }

  lemma RemainderOf(q: nat, n: nat, w: nat)
    requires w < n
    ensures (n * q + w) % n == w
  {
    var x := n * q + w;
    var a, b := x / n, x % n;
    assert n * (a - q) == w - b;
    if a != q {
      NotBetween(n, a - q);
    }
  }

  lemma NotBetween(n: nat, d: int)
    requires d != 0
    ensures n * d >= n || n * d <= -(n as int)
  {
    if d > 0 {
      assert n * (d - 1) >= 0;
    } else {
      assert n * (-d - 1) >= 0;
    }
  }

  // ---------- nothing goes on for ever ----------

  /** How far a worker is from rest, in a pool of n. */
  function WorkerRank(n: nat): Worker -> int {
    (w: Worker) =>
      match w
      case Exited => 0
      case Sleeping => 0
      case Scanning(i) => 1 + if i < n then n - i else 0
      case Checking => n + 2
      case Popping => n + 3
      case Top => n + 4
      case Running(_) => n + 5
  }

  /** A permit brings a worker back to the top, a task keeps one busy. */
  function SignalRank(n: nat): bool -> int {
    (signal: bool) => if signal then n + 5 else 0
  }

  function QueueRank(n: nat): seq<Task> -> int {
    (q: seq<Task>) => (n + 6) * |q|
  }

  function ProducerRank(n: nat): Producer -> int {
    (p: Producer) =>
      match p
      case Idle => 0
      case Refusing(_) => 1
      case Signalling(_) => n + 6
      case Pushed(_, _) => n + 7
      case Chosen(_, _) => 2 * n + 14
      case Choosing(_) => 2 * n + 15
      case Admitted(_) => 2 * n + 16
      case Acquired(_) => 2 * n + 17
      case Waiting(_) => 2 * n + 18
      case Entering(_) => 2 * n + 19
      case Called(_) => 2 * n + 20
  }

  function StopRank(stop: Stop, n: nat): int {
    match stop
    case NotStopped => 0
    case Flagged => (n + 6) * n + 2
    case Counted(_) => (n + 6) * n + 1
    case Releasing(k, _) => if k < n then (n + 6) * (n - k) else 0
  }

  function Rank(s: State): int {
    var n := |s.queues|;
    Sum(s.workers, WorkerRank(n)) + Sum(s.signals, SignalRank(n)) + Sum(s.queues, QueueRank(n))
    + Sum(s.producers, ProducerRank(n)) + StopRank(s.stop, n)
  }

  /** What goes on without new submissions, and without a first call of stop. */
  predicate Own(s: State, step: Step) {
    step.Produce? || step.Work? || (step.StopStep? && s.stop != NotStopped)
  }

  lemma Larger(n: nat, q: seq<Task>, task: Task)
    ensures QueueRank(n)(q + [task]) == QueueRank(n)(q) + n + 6 == QueueRank(n)([task] + q)
  {
    assert (n + 6) * (|q| + 1) == (n + 6) * |q| + (n + 6);
  }

  lemma WorkerMoves(s: State, w: nat, e: Effect)
    requires Shaped(s) && w < |s.workers| && e.Move? && Legal(s, w, e)
    ensures Rank(Carried(s, w, e)) == Rank(s)
            - WorkerRank(|s.queues|)(s.workers[w]) + WorkerRank(|s.queues|)(e.pc)
            - if e.woken then SignalRank(|s.queues|)(s.signals[w]) else 0
  {
    SumUpdate(s.workers, w, e.pc, WorkerRank(|s.queues|));
    SumUpdate(s.signals, w, false, SignalRank(|s.queues|));
  }

  lemma WorkerPops(s: State, w: nat, e: Effect)
    requires Shaped(s) && w < |s.workers| && e.Pop? && Legal(s, w, e)
    ensures Rank(Carried(s, w, e)) ==
            Rank(s) - WorkerRank(|s.queues|)(s.workers[w]) + (|s.queues| + 5) - (|s.queues| + 6)
  {
    var n := |s.queues|;
    SumUpdate(s.workers, w, Running(e.task), WorkerRank(n));
    SumUpdate(s.queues, e.victim, e.queue, QueueRank(n));
    Larger(n, e.queue, e.task);
  }

  lemma WorkTires(s: State, w: nat, locked: bool)
    requires Shaped(s) && Enabled(s, Work(w, locked))
    ensures Rank(Worked(s, w, locked)) < Rank(s)
  {
    var e := WorkEffect(s, w, locked);
    if e.Pop? {
      WorkerPops(s, w, e);
    } else {
      WorkerMoves(s, w, e);
    }
  }

  lemma ProducerMoves(s: State, p: nat, x: Producer)
    requires p < |s.producers|
    ensures Sum(s.producers[p := x], ProducerRank(|s.queues|)) ==
            Sum(s.producers, ProducerRank(|s.queues|))
            - ProducerRank(|s.queues|)(s.producers[p]) + ProducerRank(|s.queues|)(x)
  {
    SumUpdate(s.producers, p, x, ProducerRank(|s.queues|));
  }

  lemma PushTires(s: State, p: nat)
    requires Shaped(s) && p < |s.producers| && s.producers[p].Chosen?
    ensures Rank(Produced(s, p)) < Rank(s)
  {
    var n, w := |s.queues|, s.producers[p].worker;
    ProducerMoves(s, p, Produced(s, p).producers[p]);
    SumUpdate(s.queues, w, s.queues[w] + [s.producers[p].task], QueueRank(n));
    Larger(n, s.queues[w], s.producers[p].task);
  }

  lemma SignalTires(s: State, p: nat)
    requires Shaped(s) && p < |s.producers| && s.producers[p].Signalling?
    ensures Rank(Produced(s, p)) < Rank(s)
  {
    ProducerMoves(s, p, Idle);
    SumUpdate(s.signals, s.producers[p].worker, true, SignalRank(|s.queues|));
  }

  /** A step of a producer that neither pushes nor signals. */
  lemma OtherTires(s: State, p: nat)
    requires Shaped(s) && Enabled(s, Produce(p)) && !s.producers[p].Chosen? && !s.producers[p].Signalling?
    ensures Rank(Produced(s, p)) < Rank(s)
  {
    var t := Produced(s, p);
    var x := t.producers[p];
    ProducerMoves(s, p, x);
    RankGoesDown(s, p, |s.queues|);
    assert t.producers == s.producers[p := x];
    assert t.workers == s.workers && t.signals == s.signals && t.queues == s.queues && t.stop == s.stop;
  }

  lemma RankGoesDown(s: State, p: nat, n: nat)
    requires Shaped(s) && Enabled(s, Produce(p)) && !s.producers[p].Chosen? && !s.producers[p].Signalling?
    ensures |Produced(s, p).producers| == |s.producers|
    ensures ProducerRank(n)(Produced(s, p).producers[p]) < ProducerRank(n)(s.producers[p])
  {
  }

  lemma ProduceTires(s: State, p: nat)
    requires Shaped(s) && Enabled(s, Produce(p))
    ensures Rank(Produced(s, p)) < Rank(s)
  {
    if s.producers[p].Chosen? {
      PushTires(s, p);
    } else if s.producers[p].Signalling? {
      SignalTires(s, p);
    } else {
      OtherTires(s, p);
    }
  }

  lemma OneFewer(n: nat, k: nat)
    requires k < n
    ensures StopRank(Releasing(k, 0), n) == StopRank(Releasing(k + 1, 0), n) + n + 6
  {
    assert (n + 6) * (n - k) == (n + 6) * (n - (k + 1)) + (n + 6);
    assert k + 1 == n ==> (n + 6) * (n - (k + 1)) == 0;
  }

  lemma StopTires(s: State)
    requires Shaped(s) && Enabled(s, StopStep) && s.stop != NotStopped
    ensures Rank(Stopped(s)) < Rank(s)
  {
    var n := |s.queues|;
    if s.stop.Releasing? {
      var k := s.stop.k;
      SumUpdate(s.signals, k, true, SignalRank(n));
      OneFewer(n, k);
    }
  }

  lemma StepTires(s: State, step: Step)
    requires Shaped(s) && Enabled(s, step) && Own(s, step)
    ensures Rank(Apply(s, step)) < Rank(s)
  {
    match step
    case Produce(p) => ProduceTires(s, p);
    case Work(w, locked) => WorkTires(s, w, locked);
    case StopStep => StopTires(s);
  }

  lemma {:induction false} SumNatural<X>(xs: seq<X>, f: X -> int)
    requires forall i :: 0 <= i < |xs| ==> f(xs[i]) >= 0
    ensures Sum(xs, f) >= 0
  {
    SumBound(xs, f);
  }

  lemma QueuesNatural(qs: seq<seq<Task>>, n: nat)
    ensures Sum(qs, QueueRank(n)) >= 0
  {
    forall i | 0 <= i < |qs| ensures QueueRank(n)(qs[i]) >= 0 {
      assert (n + 6) * |qs[i]| >= 0;
    }
    SumNatural(qs, QueueRank(n));
  }

  lemma StopNatural(stop: Stop, n: nat)
    ensures StopRank(stop, n) >= 0
  {
    assert (n + 6) * n >= 0;
    if stop.Releasing? && stop.k < n {
      assert (n + 6) * (n - stop.k) >= 0;
    }
  }

  lemma RankIsNatural(s: State)
    ensures Rank(s) >= 0
  {
    var n := |s.queues|;
    SumNatural(s.workers, WorkerRank(n));
    SumNatural(s.signals, SignalRank(n));
    SumNatural(s.producers, ProducerRank(n));
    QueuesNatural(s.queues, n);
    StopNatural(s.stop, n);
  }

  ghost predicate OwnRun(s: State, steps: seq<Step>)
    decreases |steps|
  {
    steps == [] ||
    (Shaped(s) && Enabled(s, steps[0]) && Own(s, steps[0]) && OwnRun(Apply(s, steps[0]), steps[1..]))
  }

  /** However the threads are scheduled, without new submissions they come to rest, within a known number of steps. */
  lemma {:induction false} ComesToRest(s: State, steps: seq<Step>)
    requires OwnRun(s, steps)
    ensures IsRun(s, steps) && |steps| <= Rank(s)
    decreases |steps|
  {
    RankIsNatural(s);
    if steps != [] {
      StepTires(s, steps[0]);
      ComesToRest(Apply(s, steps[0]), steps[1..]);
    }
  }

  // ---------- where they come to rest ----------

  predicate Resting(s: State) {
    && (forall p :: 0 <= p < |s.producers| ==> !Enabled(s, Produce(p)))
    && (forall w :: 0 <= w < |s.workers| ==> !Enabled(s, Work(w, true)))
    && (s.stop != NotStopped ==> !Enabled(s, StopStep))
  }

  lemma RestingMeansStuck(s: State, step: Step)
    requires Resting(s) && Own(s, step)
    ensures !Enabled(s, step)
  {
    if step.Work? && step.w < |s.workers| {
      assert !Enabled(s, Work(step.w, true));
    }
  }

  /** Nobody at rest in a running pool holds a task or is about to wake anyone. */
  lemma RestingProducers(s: State)
    requires Inv(s) && Resting(s)
    ensures forall p :: 0 <= p < |s.producers| ==> s.producers[p] == Idle || (s.producers[p].Waiting? && s.slots <= 0)
    ensures Sum(s.producers, HoldsSlot) == 0
    ensures forall w: nat :: !WakerFor(s, w)
  {
    forall p | 0 <= p < |s.producers| ensures s.producers[p] == Idle || (s.producers[p].Waiting? && s.slots <= 0) {
      assert !Enabled(s, Produce(p));
    }
    SumZero(s.producers, HoldsSlot);
  }

  /** A running pool at rest has run everything: the producers are done, the workers asleep, the queues empty. */
  lemma RestIsQuiet(s: State)
    requires Inv(s) && Resting(s) && s.running
    ensures Quiescent(s) && s.submitted == s.taken
  {
    RestingProducers(s);
    forall w | 0 <= w < |s.workers| ensures s.workers[w] == Sleeping && !s.signals[w] && s.queues[w] == [] {
      assert !Enabled(s, Work(w, true));
    }
    SumZero(s.queues, Len);
    forall p | 0 <= p < |s.producers| ensures s.producers[p] == Idle {
      assert s.producers[p].Waiting? ==> AtSlots(s.producers[p]);
    }
    forall task: Task ensures s.submitted[task] == s.taken[task] {
      QuiescentAccounts(s, task);
    }
  }

  lemma OwnStays(s: State, step: Step)
    requires Shaped(s) && Enabled(s, step) && Own(s, step)
    ensures var t := Apply(s, step);
            t.submitted == s.submitted && (s.running && s.stop == NotStopped ==> t.running && t.stop == NotStopped)
  {
  }

  /** From any state the threads can be run until they rest. */
  lemma {:induction false} RunToRest(s: State) returns (steps: seq<Step>)
    requires Inv(s)
    ensures OwnRun(s, steps) && IsRun(s, steps) && Inv(After(s, steps)) && Resting(After(s, steps))
    ensures After(s, steps).submitted == s.submitted && (s.running ==> After(s, steps).running)
    decreases Rank(s)
  {
    RankIsNatural(s);
    if Resting(s) {
      steps := [];
    } else {
      var step := SomeStep(s);
      StepTires(s, step);
      StepInv(s, step);
      OwnStays(s, step);
      steps := RunToRest(Apply(s, step));
      assert ([step] + steps)[1..] == steps;
      steps := [step] + steps;
    }
  }

  lemma SomeStep(s: State) returns (step: Step)
    requires !Resting(s)
    ensures Own(s, step) && Enabled(s, step)
  {
    if p :| 0 <= p < |s.producers| && Enabled(s, Produce(p)) {
      step := Produce(p);
    } else if w :| 0 <= w < |s.workers| && Enabled(s, Work(w, true)) {
      step := Work(w, true);
    } else {
      step := StopStep;
    }
  }

  /**
   From every reachable state of a running pool, every schedule of its threads without new
   submissions ends, and where it cannot go on everything submitted has been taken.
   */
  lemma EverythingIsTaken(s: State, steps: seq<Step>)
    requires Initial(s) && IsRun(s, steps) && After(s, steps).running
    ensures var t := After(s, steps);
            && (forall more :: OwnRun(t, more) ==> |more| <= Rank(t))
            && (Resting(t) ==> Quiescent(t) && t.taken == t.submitted)
            && exists more :: OwnRun(t, more) && IsRun(t, more) && After(t, more).taken == t.submitted
  {
    var t := After(s, steps);
    InitialInv(s);
    EveryRun(s, steps);
    forall more | OwnRun(t, more) ensures |more| <= Rank(t) {
      ComesToRest(t, more);
    }
    if Resting(t) {
      RestIsQuiet(t);
    }
    var more := RunToRest(t);
    RestIsQuiet(After(t, more));
  }

  // ---------- stopping ----------

  /**
   A stopped pool at rest: stop has released every worker and they have all left. A producer
   that is not done waits for a slot; then the queues are full and stop had counted nobody.
   */
  lemma StoppedAtRest(s: State)
    requires Inv(s) && Resting(s) && !s.running
    ensures s.stop.Releasing? && forall w :: 0 <= w < |s.workers| ==> s.workers[w] == Exited
    ensures forall p :: 0 <= p < |s.producers| && s.producers[p] != Idle ==>
              s.producers[p].Waiting? && s.bounded && s.stop.granted == 0 && Sum(s.queues, Len) == s.limit
  {
    RestingProducers(s);
    forall w | 0 <= w < |s.workers| ensures s.workers[w] == Exited {
      assert !Enabled(s, Work(w, true)) && Released(s, w);
    }
    SumBound(s.producers, WillPush);
    forall p | 0 <= p < |s.producers| && s.producers[p] != Idle
      ensures s.producers[p].Waiting? && s.bounded && s.stop.granted == 0 && Sum(s.queues, Len) == s.limit
    {
      assert AtSlots(s.producers[p]);
    }
  }

  /**
   After stop has begun, every schedule ends, with all workers gone. All producers have
   returned too if stop found someone counted as waiting, or the queues are not full.
   */
  lemma StopEnds(s: State, steps: seq<Step>)
    requires Initial(s) && IsRun(s, steps) && !After(s, steps).running
    ensures var t := After(s, steps);
            && (forall more :: OwnRun(t, more) ==> |more| <= Rank(t))
            && (Resting(t) ==>
                  && (forall w :: 0 <= w < |t.workers| ==> t.workers[w] == Exited)
                  && (Granted(t) > 0 || Sum(t.queues, Len) < t.limit || !t.bounded ==>
                        forall p :: 0 <= p < |t.producers| ==> t.producers[p] == Idle))
            && exists more :: OwnRun(t, more) && IsRun(t, more) && Resting(After(t, more))
  {
    var t := After(s, steps);
    InitialInv(s);
    EveryRun(s, steps);
    forall more | OwnRun(t, more) ensures |more| <= Rank(t) {
      ComesToRest(t, more);
    }
    if Resting(t) {
      StoppedAtRest(t);
    }
    var more := RunToRest(t);
  }

  /** stop reads how many producers are at the semaphore, and gives it that many permits. */
  lemma StopGrants(s: State)
    requires Inv(s) && s.bounded && s.stop == Flagged
    ensures var t := Apply(s, StopStep);
            && t.stop == Counted(Sum(s.producers, IsWaiting)) && t.waiting == 0
            && var u := Apply(t, StopStep);
               u.slots == s.slots + Sum(s.producers, IsWaiting) && u.stop == Releasing(0, Sum(s.producers, IsWaiting))
  {
    SumBound(s.producers, IsWaiting);
  }

  lemma {:induction false} GrantStays(s: State, steps: seq<Step>, n: nat)
    requires IsRun(s, steps) && (s.stop == Counted(n) || (s.stop.Releasing? && s.stop.granted == n))
    ensures var t := After(s, steps); t.stop == Counted(n) || (t.stop.Releasing? && t.stop.granted == n)
    decreases |steps|
  {
    if steps != [] {
      GrantStep(s, steps[0], n);
      GrantStays(Apply(s, steps[0]), steps[1..], n);
    }
  }

  lemma GrantStep(s: State, step: Step, n: nat)
    requires Shaped(s) && Enabled(s, step) && (s.stop == Counted(n) || (s.stop.Releasing? && s.stop.granted == n))
    ensures var t := Apply(s, step); t.stop == Counted(n) || (t.stop.Releasing? && t.stop.granted == n)
  {
  }

  /** If anyone is at the semaphore when stop reads the count, no producer is left waiting in the end. */
  lemma StopFreesAll(s: State, steps: seq<Step>, p: nat)
    requires Inv(s) && s.bounded && s.stop == Flagged && p < |s.producers| && IsWaiting(s.producers[p]) == 1
    requires IsRun(Apply(s, StopStep), steps) && Resting(After(Apply(s, StopStep), steps))
    ensures var t := After(Apply(s, StopStep), steps);
            forall q :: 0 <= q < |t.producers| ==> t.producers[q] == Idle
  {
    var n := Sum(s.producers, IsWaiting);
    SumBound(s.producers, IsWaiting);
    StopGrants(s);
    StepInv(s, StopStep);
    GrantStays(Apply(s, StopStep), steps, n);
    EveryRun(Apply(s, StopStep), steps);
    StoppedAtRest(After(Apply(s, StopStep), steps));
  }

  // ---------- who is left waiting ----------

  /** stop has counted nobody, no worker will take a task any more, and every slot is or will be used. */
  predicate Clogged(s: State) {
    && s.bounded && s.stop.Releasing? && s.stop.granted == 0 && !s.running
    && (forall w :: 0 <= w < |s.workers| ==> MayTake(s.workers[w]) == 0)
    && Sum(s.queues, Len) + Sum(s.producers, WillPush) == s.limit
  }

  predicate AtSemaphore(p: Producer) {
    p.Entering? || p.Waiting?
  }

  /** Producers that hold a slot and will not push. */
  function WillReturnSlot(p: Producer): int {
    HoldsSlot(p) - WillPush(p)
  }

  lemma {:induction false} HoldersSplit(ps: seq<Producer>)
    ensures Sum(ps, HoldsSlot) == Sum(ps, WillPush) + Sum(ps, WillReturnSlot)
  {
    if ps != [] {
      HoldersSplit(ps[1..]);
    }
  }

  lemma CloggedHasNoSlots(s: State)
    requires Inv(s) && Clogged(s)
    ensures s.slots == 0 && forall p :: 0 <= p < |s.producers| ==> WillReturnSlot(s.producers[p]) == 0
  {
    HoldersSplit(s.producers);
    SumBound(s.producers, WillReturnSlot);
  }

  lemma CloggedProduces(s: State, p: nat)
    requires Inv(s) && Clogged(s) && Enabled(s, Produce(p))
    ensures Clogged(Produced(s, p)) && |Produced(s, p).producers| == |s.producers|
    ensures forall q :: 0 <= q < |s.producers| && AtSemaphore(s.producers[q]) ==>
              AtSemaphore(Produced(s, p).producers[q])
  {
    CloggedHasNoSlots(s);
    MoveProducer(s, p, Produced(s, p).producers[p]);
    if s.producers[p].Chosen? {
      var w := s.producers[p].worker;
      SumUpdate(s.queues, w, s.queues[w] + [s.producers[p].task], Len);
    }
  }

  lemma CloggedWorks(s: State, w: nat, locked: bool)
    requires Inv(s) && Clogged(s) && Enabled(s, Work(w, locked))
    ensures Clogged(Worked(s, w, locked)) && Worked(s, w, locked).producers == s.producers
  {
    assert MayTake(s.workers[w]) == 0;
  }

  lemma CloggedStep(s: State, step: Step, p: nat)
    requires Inv(s) && Clogged(s) && Enabled(s, step) && p < |s.producers| && AtSemaphore(s.producers[p])
    ensures var t := Apply(s, step); Clogged(t) && p < |t.producers| && AtSemaphore(t.producers[p])
  {
    match step
    case Submit(_, _) =>
    case Produce(q) => CloggedProduces(s, q);
    case Work(w, locked) => CloggedWorks(s, w, locked);
    case StopStep =>
  }

  lemma {:induction false} CloggedForGood(s: State, steps: seq<Step>, p: nat)
    requires Inv(s) && Clogged(s) && IsRun(s, steps) && p < |s.producers| && AtSemaphore(s.producers[p])
    ensures var t := After(s, steps); p < |t.producers| && AtSemaphore(t.producers[p])
    decreases |steps|
  {
    if steps != [] {
      CloggedStep(s, steps[0], p);
      StepInv(s, steps[0]);
      CloggedForGood(Apply(s, steps[0]), steps[1..], p);
    }
  }

  /** The room a stopped pool's queues have left once everyone about to push has pushed. */
  function Room(s: State): int {
    s.limit - Sum(s.queues, Len) - Sum(s.producers, WillPush)
  }

  lemma RoomStays(s: State, step: Step)
    requires Inv(s) && !s.running && s.bounded && Enabled(s, step)
    ensures Room(Apply(s, step)) >= Room(s) && !Apply(s, step).running && Apply(s, step).bounded
    ensures |Apply(s, step).producers| == |s.producers|
  {
    match step
    case Submit(_, _) =>
    case Produce(p) =>
      MoveProducer(s, p, Produced(s, p).producers[p]);
      if s.producers[p].Chosen? {
        var w := s.producers[p].worker;
        SumUpdate(s.queues, w, s.queues[w] + [s.producers[p].task], Len);
      }
    case Work(w, locked) =>
      var e := WorkEffect(s, w, locked);
      if e.Pop? {
        SumUpdate(s.queues, e.victim, e.queue, Len);
      }
    case StopStep =>
  }

  lemma {:induction false} RoomLasts(s: State, steps: seq<Step>)
    requires Inv(s) && !s.running && s.bounded && IsRun(s, steps)
    ensures Room(After(s, steps)) >= Room(s) && !After(s, steps).running && After(s, steps).bounded
    ensures |After(s, steps).producers| == |s.producers|
    decreases |steps|
  {
    if steps != [] {
      RoomStays(s, steps[0]);
      StepInv(s, steps[0]);
      RoomLasts(Apply(s, steps[0]), steps[1..]);
    }
  }

  /** With permits from stop, or room in the queues, every producer can return. */
  lemma CanReturn(s: State, p: nat) returns (steps: seq<Step>)
    requires Inv(s) && s.bounded && s.stop.Releasing? && p < |s.producers| && (s.stop.granted > 0 || Room(s) > 0)
    ensures IsRun(s, steps) && p < |After(s, steps).producers| && After(s, steps).producers[p] == Idle
  {
    steps := RunToRest(s);
    var t := After(s, steps);
    RoomLasts(s, steps);
    GrantStays(s, steps, s.stop.granted);
    StoppedAtRest(t);
    SumBound(t.producers, WillPush);
  }

  /**
   After stop, once no worker will take a task any more: a producer at the semaphore returns in
   no continuation if and only if stop counted nobody and the queues are full, with what is
   about to be pushed.
   */
  lemma LeftWaitingExactly(s: State, p: nat)
    requires Inv(s) && s.bounded && s.stop.Releasing? && p < |s.producers| && AtSemaphore(s.producers[p])
    requires forall w :: 0 <= w < |s.workers| ==> MayTake(s.workers[w]) == 0
    ensures (forall steps :: IsRun(s, steps) ==>
               p < |After(s, steps).producers| && AtSemaphore(After(s, steps).producers[p]))
            <==> s.stop.granted == 0 && Sum(s.queues, Len) + Sum(s.producers, WillPush) == s.limit
  {
    if Clogged(s) {
      forall steps | IsRun(s, steps)
        ensures p < |After(s, steps).producers| && AtSemaphore(After(s, steps).producers[p])
      {
        CloggedForGood(s, steps, p);
      }
    } else {
      var steps := CanReturn(s, p);
      assert IsRun(s, steps) && !AtSemaphore(After(s, steps).producers[p]);
    }
  }

  lemma {:induction false} RunsJoin(s: State, a: seq<Step>, b: seq<Step>)
    requires IsRun(s, a) && IsRun(After(s, a), b)
    ensures IsRun(s, a + b) && After(s, a + b) == After(After(s, a), b)
    decreases |a|
  {
    if a == [] {
      assert a + b == b;
    } else {
      assert (a + b)[1..] == a[1..] + b;
      RunsJoin(Apply(s, a[0]), a[1..], b);
    }
  }

  /** A pool with one worker, one slot and two producers. */
  const SMALL := State([[]], [false], [Top], [Idle, Idle], true, 1, 1, 0, 0, 0, true, NotStopped,
                       multiset{}, multiset{}, multiset{})

  /** The same with task 7 submitted by the first producer, which has returned, and not yet taken. */
  const FULL := SMALL.(queues := [[7]], signals := [true], slots := 0, queued := 1, nextWorker := 1,
                       submitted := multiset{7})

  lemma Then(s: State, a: seq<Step>, step: Step, t: State)
    requires IsRun(s, a) && Shaped(After(s, a)) && Enabled(After(s, a), step) && Apply(After(s, a), step) == t
    ensures IsRun(s, a + [step]) && After(s, a + [step]) == t
  {
    Runs(After(s, a), step);
    RunsJoin(s, a, [step]);
  }

  const GETS_SLOT := [] + [Submit(0, 7)] + [Produce(0)] + [Produce(0)] + [Produce(0)] + [Produce(0)]

  lemma GetsSlot()
    ensures IsRun(SMALL, GETS_SLOT)
    ensures After(SMALL, GETS_SLOT) == SMALL.(producers := [Admitted(7), Idle], slots := 0, submitted := multiset{7})
  {
    var s1 := SMALL.(producers := [Called(7), Idle], submitted := multiset{7});
    var s2, s3 := s1.(producers := [Entering(7), Idle]), s1.(producers := [Waiting(7), Idle], waiting := 1);
    var s4 := s3.(producers := [Acquired(7), Idle], slots := 0);
    Then(SMALL, [], Submit(0, 7), s1);
    Then(SMALL, [] + [Submit(0, 7)], Produce(0), s2);
    Then(SMALL, [] + [Submit(0, 7)] + [Produce(0)], Produce(0), s3);
    Then(SMALL, [] + [Submit(0, 7)] + [Produce(0)] + [Produce(0)], Produce(0), s4);
    Then(SMALL, [] + [Submit(0, 7)] + [Produce(0)] + [Produce(0)] + [Produce(0)], Produce(0),
         s4.(producers := [Admitted(7), Idle], waiting := 0));
  }

  const FILLS := GETS_SLOT + [Produce(0)] + [Produce(0)] + [Produce(0)] + [Produce(0)] + [Produce(0)]

  lemma Fills()
    ensures IsRun(SMALL, FILLS) && After(SMALL, FILLS) == FULL
  {
    GetsSlot();
    var s5, p := SMALL.(producers := [Admitted(7), Idle], slots := 0, submitted := multiset{7}), [Produce(0)];
    var s6, s7 := s5.(producers := [Choosing(7), Idle]), s5.(producers := [Chosen(7, 0), Idle], nextWorker := 1);
    var s8 := s7.(queues := [[7]], producers := [Pushed(0, true), Idle]);
    var s9 := s8.(queued := 1, producers := [Signalling(0), Idle]);
    assert Shard(0, 1) == 0;
    Then(SMALL, GETS_SLOT, Produce(0), s6);
    Then(SMALL, GETS_SLOT + p, Produce(0), s7);
    assert s7.queues[0] + [7] == [7];
    Then(SMALL, GETS_SLOT + p + p, Produce(0), s8);
    Then(SMALL, GETS_SLOT + p + p + p, Produce(0), s9);
    Then(SMALL, GETS_SLOT + p + p + p + p, Produce(0), FULL);
  }

  const ENTERS := FILLS + [Submit(1, 8)] + [Produce(1)]
  const STOPS := ENTERS + [StopStep] + [StopStep] + [StopStep] + [StopStep]
  const LATE := FULL.(producers := [Idle, Entering(8)], submitted := multiset{7, 8})

  lemma Enters()
    ensures IsRun(SMALL, ENTERS) && After(SMALL, ENTERS) == LATE
  {
    Fills();
    Then(SMALL, FILLS, Submit(1, 8), LATE.(producers := [Idle, Called(8)]));
    Then(SMALL, FILLS + [Submit(1, 8)], Produce(1), LATE);
  }

  lemma Stops()
    ensures IsRun(SMALL, STOPS)
    ensures After(SMALL, STOPS) == LATE.(running := false, stop := Releasing(1, 0))
  {
    Enters();
    var s := LATE.(running := false);
    Then(SMALL, ENTERS, StopStep, s.(stop := Flagged));
    Then(SMALL, ENTERS + [StopStep], StopStep, s.(stop := Counted(0)));
    Then(SMALL, ENTERS + [StopStep] + [StopStep], StopStep, s.(stop := Releasing(0, 0)));
    Then(SMALL, ENTERS + [StopStep] + [StopStep] + [StopStep], StopStep, s.(stop := Releasing(1, 0)));
  }

  /**
   It does happen: a producer that saw the pool running, and is counted as waiting only after
   stop has read the count, waits for ever in front of a full queue.
   */
  lemma StopLeavesProducer()
    ensures var steps := STOPS + [Produce(1)] + [Work(0, true)];
            && Initial(SMALL) && IsRun(SMALL, steps)
            && Resting(After(SMALL, steps)) && After(SMALL, steps).producers == [Idle, Waiting(8)]
  {
    Stops();
    var s := LATE.(producers := [Idle, Waiting(8)], running := false, stop := Releasing(1, 0), waiting := 1);
    Then(SMALL, STOPS, Produce(1), s);
    Then(SMALL, STOPS + [Produce(1)], Work(0, true), s.(workers := [Exited]));
  }
}
