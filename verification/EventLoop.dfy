/**
 The pending-functor protocol of EventLoop: a queue pushed by any thread and swapped out by
 the loop, and an eventfd that interrupts the poll.

 A step is one lock section, one eventfd operation or one functor. Functors are named by
 numbers; what one of them does to the queue is a sequence of steps of the loop thread.
 */
module EventLoop {
  type Functor = int
  type Thread = int

  /** Where the loop thread is: outside loop(), at the test of quit_, in poll, in the handlers, in doPendingFunctors. */
  datatype Pc =
    | Outside
    | Test
    | Polling
    | Handling(ready: bool)   // ready: the wakeup channel is among the active ones, not yet handled
    | Swapping                // callingPendingFunctors_ set, queue not yet swapped
    | Running(waking: bool)   // waking: a functor has pushed and not yet written the eventfd

  datatype State = State(
    pc: Pc,
    pending: seq<Functor>,
    batch: seq<Functor>,
    executed: seq<Functor>,
    pushed: seq<Functor>,
    eventfd: nat,
    quit: bool,
    waking: set<Thread>,      // other threads between their push, or their quit_, and their wakeup()
    polled: bool,             // a poll of this call of loop() has returned
    early: bool,              // the loop thread has queued outside loop() since the last swap
    signalled: bool)          // a wakeup() was begun since the last read of the eventfd that met none in progress

  datatype Step =
    | Push(t: Thread, f: Functor)
    | Quit(t: Thread)
    | Wake(t: Thread)
    | LoopPush(f: Functor)
    | LoopQuit
    | LoopWake
    | Start
    | TestQuit
    | PollReturns(ready: bool)
    | ReadEventfd
    | HandlersDone
    | Swap
    | RunFunctor
    | BatchDone

  predicate Initial(s: State) {
    s == State(Outside, [], [], [], [], 0, false, {}, false, false, false)
  }

  /** callingPendingFunctors_. */
  predicate Calling(s: State) {
    s.pc.Swapping? || s.pc.Running?
  }

  predicate Enabled(s: State, step: Step) {
    match step
    case Push(t, _) => t !in s.waking
    case Quit(t) => t !in s.waking
    case Wake(t) => t in s.waking
    case LoopPush(_) => s.pc.Outside? || s.pc.Handling? || s.pc == Running(false)
    case LoopQuit => s.pc.Outside? || s.pc.Handling? || s.pc == Running(false)
    case LoopWake => s.pc == Running(true)
    case Start => s.pc.Outside?
    case TestQuit => s.pc.Test?
    case PollReturns(ready) => s.pc.Polling? && (ready ==> s.eventfd > 0)
    case ReadEventfd => s.pc == Handling(true)
    case HandlersDone => s.pc == Handling(false)
    case Swap => s.pc.Swapping?
    case RunFunctor => s.pc == Running(false) && s.batch != []
    case BatchDone => s.pc == Running(false) && s.batch == []
  }

  /** queueInLoop up to the wakeup, in any thread. */
  function Pushed(s: State, f: Functor): State {
    s.(pending := s.pending + [f], pushed := s.pushed + [f])
  }

  /** queueInLoop in the loop thread, which writes the eventfd only while functors are being called. */
  function LoopPushed(s: State, f: Functor): State {
    if Calling(s) then Pushed(s, f).(pc := Running(true), signalled := true)
    else Pushed(s, f).(early := s.early || s.pc.Outside?)
  }

  /** loop() may be called again after it returned; each call clears quit_. */
  function Apply(s: State, step: Step): State
    requires Enabled(s, step)
  {
    match step
    case Push(t, f) => Pushed(s, f).(waking := s.waking + {t}, signalled := true)
    case Quit(t) => s.(quit := true, waking := s.waking + {t}, signalled := true)
    case Wake(t) => s.(eventfd := s.eventfd + 1, waking := s.waking - {t})
    case LoopPush(f) => LoopPushed(s, f)
    case LoopQuit => s.(quit := true)
    case LoopWake => s.(eventfd := s.eventfd + 1, pc := Running(false))
    case Start => s.(quit := false, polled := false, pc := Test)
    case TestQuit => s.(pc := if s.quit then Outside else Polling)
    case PollReturns(ready) => s.(polled := true, pc := Handling(ready))
    case ReadEventfd => s.(eventfd := 0, signalled := s.waking != {}, pc := Handling(false))
    case HandlersDone => s.(pc := Swapping)
    case Swap => s.(batch := s.pending, pending := [], early := false, pc := Running(false))
    case RunFunctor => s.(executed := s.executed + [s.batch[0]], batch := s.batch[1..])
    case BatchDone => s.(pc := Test)
  }

  // ---------- invariants ----------

  /** Functors run in the order of the pushes, each once: what is not executed is in the batch, then in the queue. */
  predicate InPushOrder(s: State) {
    s.executed + s.batch + s.pending == s.pushed
  }

  /** Something will make the poll return. */
  predicate WillReturn(s: State) {
    s.eventfd > 0 || s.waking != {} || s.pc == Running(true)
  }

  /** Where the loop may go on to poll without looking at the queue again. */
  predicate MayPoll(s: State) {
    s.pc.Outside? || s.pc.Test? || s.pc.Polling? || s.pc.Running?
  }

  predicate Attended(s: State) {
    && (MayPoll(s) && s.pending != [] ==> WillReturn(s) || s.early)
    && (s.pc.Polling? && s.quit ==> WillReturn(s))
    && (s.signalled <==> WillReturn(s))
  }

  /** What was queued outside loop() is still there, until the first poll after it has returned. */
  predicate EarlyWaits(s: State) {
    && (s.early ==> s.pending != [] && !s.pc.Running?)
    && (s.early && (s.pc.Test? || s.pc.Polling?) ==> !s.polled)
    && (!s.pc.Running? ==> s.batch == [])
  }

  predicate Inv(s: State) {
    InPushOrder(s) && Attended(s) && EarlyWaits(s)
  }

  lemma InitialInv(s: State)
    requires Initial(s)
    ensures Inv(s)
  {
  }

  lemma PushKeepsOrder(s: State, f: Functor)
    requires InPushOrder(s)
    ensures InPushOrder(Pushed(s, f))
  {
    assert s.executed + s.batch + (s.pending + [f]) == s.executed + s.batch + s.pending + [f];
  }

  lemma OrderStep(s: State, step: Step)
    requires InPushOrder(s) && EarlyWaits(s) && Enabled(s, step)
    ensures InPushOrder(Apply(s, step))
  {
    match step
    case Push(_, f) => PushKeepsOrder(s, f);
    case LoopPush(f) => PushKeepsOrder(s, f);
    case Swap => assert s.executed + s.pending + [] == s.executed + [] + s.pending;
    case RunFunctor => assert s.executed + [s.batch[0]] + s.batch[1..] == s.executed + s.batch;
    case _ =>
  }

  /** The steps of other threads, and of the loop thread's calls into the loop. */
  predicate IsCall(step: Step) {
    step.Push? || step.Quit? || step.Wake? || step.LoopPush? || step.LoopQuit? || step.LoopWake?
  }

  lemma AttendedCall(s: State, step: Step)
    requires Attended(s) && Enabled(s, step) && IsCall(step)
    ensures Attended(Apply(s, step))
  {
  }

  lemma AttendedStep(s: State, step: Step)
    requires Attended(s) && EarlyWaits(s) && Enabled(s, step)
    ensures Attended(Apply(s, step))
  {
    if IsCall(step) {
      AttendedCall(s, step);
    }
  }

  lemma EarlyStep(s: State, step: Step)
    requires EarlyWaits(s) && Enabled(s, step)
    ensures EarlyWaits(Apply(s, step))
  {
  }

  lemma StepInv(s: State, step: Step)
    requires Inv(s) && Enabled(s, step)
    ensures Inv(Apply(s, step))
  {
    OrderStep(s, step);
    AttendedStep(s, step);
    EarlyStep(s, step);
  }

  // ---------- every run ----------

  predicate IsRun(s: State, steps: seq<Step>)
    decreases |steps|
  {
    steps == [] || (Enabled(s, steps[0]) && IsRun(Apply(s, steps[0]), steps[1..]))
  }

  function After(s: State, steps: seq<Step>): State
    requires IsRun(s, steps)
    decreases |steps|
  {
    if steps == [] then s else After(Apply(s, steps[0]), steps[1..])
  }

  lemma {:induction false} EveryRun(s: State, steps: seq<Step>)
    requires Inv(s) && IsRun(s, steps)
    ensures Inv(After(s, steps))
    decreases |steps|
  {
    if steps != [] {
      StepInv(s, steps[0]);
      EveryRun(Apply(s, steps[0]), steps[1..]);
    }
  }

  /** Blocked in poll with functors queued, the eventfd not readable and no thread about to write it. */
  predicate SleepsOnWork(s: State) {
    s.pc.Polling? && s.pending != [] && s.eventfd == 0 && s.waking == {}
  }

  /**
   In every run, over any number of calls of loop(): functors are executed in push order, each
   once. The loop sleeps on work exactly in the first poll of a call, when its own thread
   queued functors outside loop() and no wakeup() has been begun that was not yet read. A quit
   that a call of loop() can see is never slept through.
   */
  lemma FunctorsRunInOrder(s: State, steps: seq<Step>)
    requires Initial(s) && IsRun(s, steps)
    ensures var t := After(s, steps);
            && t.executed + t.batch + t.pending == t.pushed
            && (SleepsOnWork(t) <==> t.pc.Polling? && !t.polled && t.early && !t.signalled)
            && (t.pc.Polling? && t.quit ==> t.eventfd > 0 || t.waking != {})
  {
    InitialInv(s);
    EveryRun(s, steps);
  }

  /** With nothing queued from the loop thread outside loop(), the loop never sleeps on work. */
  lemma NeverSleepsOnWork(s: State, steps: seq<Step>)
    requires Initial(s) && IsRun(s, steps)
    requires !After(s, steps).early
    ensures !SleepsOnWork(After(s, steps))
  {
    FunctorsRunInOrder(s, steps);
  }

  lemma {:induction false} RunsJoin(s: State, a: seq<Step>, b: seq<Step>)
    requires IsRun(s, a) && IsRun(After(s, a), b)
    ensures IsRun(s, a + b) && After(s, a + b) == After(After(s, a), b)
    decreases |a|
  {
    if a == [] {
      assert a + b == b;
    } else {
      assert (a + b)[1..] == a[1..] + b;
      RunsJoin(Apply(s, a[0]), a[1..], b);
    }
  }

  lemma Then(s: State, a: seq<Step>, step: Step)
    requires IsRun(s, a) && Enabled(After(s, a), step)
    ensures IsRun(s, a + [step]) && After(s, a + [step]) == Apply(After(s, a), step)
  {
    assert [step][1..] == [];
    RunsJoin(s, a, [step]);
  }

  const START := State(Outside, [], [], [], [], 0, false, {}, false, false, false)

  /** Whenever no wakeup() is unread, a functor queued by the loop thread outside loop() is slept on. */
  lemma EarlyFunctorSleeps(s: State, before: seq<Step>, f: Functor)
    requires IsRun(s, before) && After(s, before).pc.Outside? && !WillReturn(After(s, before))
    ensures var steps := before + [LoopPush(f)] + [Start] + [TestQuit];
            IsRun(s, steps) && SleepsOnWork(After(s, steps))
  {
    Then(s, before, LoopPush(f));
    Then(s, before + [LoopPush(f)], Start);
    Then(s, before + [LoopPush(f)] + [Start], TestQuit);
  }

  /** It happens in the first call of loop(). */
  lemma SleepsInFirstCall(f: Functor)
    ensures exists steps :: IsRun(START, steps) && SleepsOnWork(After(START, steps))
  {
    EarlyFunctorSleeps(START, [], f);
  }

  lemma FirstPoll(s: State, before: seq<Step>)
    requires IsRun(s, before) && After(s, before).pc.Outside?
    ensures var steps := before + [Start] + [TestQuit] + [PollReturns(false)];
            && IsRun(s, steps)
            && After(s, steps) == After(s, before).(quit := false, polled := true, pc := Handling(false))
  {
    Then(s, before, Start);
    Then(s, before + [Start], TestQuit);
    Then(s, before + [Start] + [TestQuit], PollReturns(false));
  }

  lemma HandlerQuits(s: State, before: seq<Step>)
    requires IsRun(s, before) && After(s, before).pc == Handling(false) && After(s, before).pending == []
    ensures var steps := before + [LoopQuit] + [HandlersDone] + [Swap] + [BatchDone] + [TestQuit];
            && IsRun(s, steps)
            && After(s, steps) == After(s, before).(quit := true, batch := [], early := false, pc := Outside)
  {
    Then(s, before, LoopQuit);
    Then(s, before + [LoopQuit], HandlersDone);
    Then(s, before + [LoopQuit] + [HandlersDone], Swap);
    Then(s, before + [LoopQuit] + [HandlersDone] + [Swap], BatchDone);
    Then(s, before + [LoopQuit] + [HandlersDone] + [Swap] + [BatchDone], TestQuit);
  }

  /** It happens again in a later call, after a poll of the earlier one has returned and a handler has quit. */
  lemma SleepsInLaterCall(f: Functor)
    ensures exists steps :: PollReturns(false) in steps && IsRun(START, steps) && SleepsOnWork(After(START, steps))
  {
    var polled := [] + [Start] + [TestQuit] + [PollReturns(false)];
    var turn := polled + [LoopQuit] + [HandlersDone] + [Swap] + [BatchDone] + [TestQuit];
    FirstPoll(START, []);
    HandlerQuits(START, polled);
    EarlyFunctorSleeps(START, turn, f);
    assert polled[2] == PollReturns(false) && polled <= turn + [LoopPush(f)] + [Start] + [TestQuit];
  }

  // ---------- quitting ----------

  /** How many polls return. */
  function Polls(steps: seq<Step>): nat {
    if steps == [] then 0 else (if steps[0].PollReturns? then 1 else 0) + Polls(steps[1..])
  }

  lemma {:induction false} OutsideStays(s: State, steps: seq<Step>)
    requires IsRun(s, steps) && s.pc.Outside? && Start !in steps
    ensures After(s, steps).pc.Outside? && Polls(steps) == 0 && TestQuit !in steps
    decreases |steps|
  {
    if steps != [] {
      assert steps[0] in steps;
      OutsideStays(Apply(s, steps[0]), steps[1..]);
    }
  }

  /**
   A quit set while loop() runs ends that call: until loop() is called again, at most the poll
   in progress returns, and the next test of quit_, and only that, leaves the loop.
   */
  lemma {:induction false} QuitEndsCall(s: State, steps: seq<Step>)
    requires IsRun(s, steps) && s.quit && !s.pc.Outside? && Start !in steps
    ensures Polls(steps) <= if s.pc.Polling? then 1 else 0
    ensures TestQuit in steps <==> After(s, steps).pc.Outside?
    decreases |steps|
  {
    if steps != [] {
      var next := Apply(s, steps[0]);
      assert steps[0] in steps;
      if steps[0] == TestQuit {
        OutsideStays(next, steps[1..]);
      } else {
        QuitEndsCall(next, steps[1..]);
      }
    }
  }

  /** So a quit from another thread, or from a handler or functor, in whatever state of a call, ends that call. */
  lemma EveryQuitEndsCall(s: State, quit: Step, steps: seq<Step>)
    requires (quit.Quit? || quit.LoopQuit?) && Enabled(s, quit) && !s.pc.Outside?
    requires IsRun(Apply(s, quit), steps) && Start !in steps
    ensures Polls(steps) <= if s.pc.Polling? then 1 else 0
    ensures TestQuit in steps <==> After(Apply(s, quit), steps).pc.Outside?
    ensures quit.Quit? ==> quit.t in Apply(s, quit).waking
  {
    QuitEndsCall(Apply(s, quit), steps);
  }

  // ---------- the functors are run ----------

  /** wakeup() makes the eventfd readable, and handleRead makes it unreadable. */
  lemma EventfdCounts(s: State)
    ensures forall t :: Enabled(s, Wake(t)) ==>
              Apply(s, Wake(t)).eventfd == s.eventfd + 1 && t !in Apply(s, Wake(t)).waking
    ensures Enabled(s, LoopWake) ==> Apply(s, LoopWake).eventfd == s.eventfd + 1
    ensures Enabled(s, ReadEventfd) ==> Apply(s, ReadEventfd).eventfd == 0
  {
  }

  lemma Preceded(s: State, step: Step, steps: seq<Step>)
    requires Enabled(s, step) && IsRun(Apply(s, step), steps)
    ensures IsRun(s, [step] + steps) && After(s, [step] + steps) == After(Apply(s, step), steps)
  {
    assert ([step] + steps)[1..] == steps;
  }

  /** How far the loop is from having run everything that is queued. */
  function Distance(s: State): nat {
    match s.pc
    case Outside => 6
    case Test => 5
    case Polling => 4
    case Handling(ready) => if ready then 3 else 2
    case Swapping => 1
    case Running(_) => 0
  }

  /** The next step of the loop thread towards running what is queued: on through the loop, or into it again. */
  function Onward(s: State): Step {
    match s.pc
    case Outside => Start
    case Test => TestQuit
    case Polling => PollReturns(false)
    case Handling(ready) => if ready then ReadEventfd else HandlersDone
    case Swapping => Swap
    case Running(waking) => if waking then LoopWake else if s.batch != [] then RunFunctor else BatchDone
  }

  /** What that step comes closer to, in order of weight. */
  function Phase(s: State): nat {
    if s.pc.Test? && s.quit then 7 else if s.pc.Running? then 8 else Distance(s)
  }

  predicate Closer(s: State, t: State) {
    || (s.pending != [] && t.pending == [])
    || (&& (s.pending == [] <==> t.pending == [])
        && (|| Phase(t) < Phase(s)
            || (Phase(t) == Phase(s)
                && (|t.batch| < |s.batch| || (t.batch == s.batch && s.pc == Running(true) && t.pc != Running(true))))))
  }

  lemma OnwardIsCloser(s: State)
    requires Inv(s) && (s.batch != [] || s.pending != [])
    ensures Enabled(s, Onward(s)) && Closer(s, Apply(s, Onward(s))) && Apply(s, Onward(s)).pushed == s.pushed
  {
  }

  /** From every reachable state the loop thread can go on so that everything pushed so far is executed. */
  lemma {:induction false} EverythingIsRun(s: State) returns (steps: seq<Step>)
    requires Inv(s)
    ensures IsRun(s, steps) && After(s, steps).executed == s.pushed
    decreases if s.pending != [] then 1 else 0, Phase(s), |s.batch|, if s.pc == Running(true) then 1 else 0
  {
    if s.batch == [] && s.pending == [] {
      steps := [];
      assert s.executed + [] + [] == s.executed;
    } else {
      var step := Onward(s);
      OnwardIsCloser(s);
      StepInv(s, step);
      steps := EverythingIsRun(Apply(s, step));
      Preceded(s, step, steps);
      steps := [step] + steps;
    }
  }

  /** A quit set while loop() does not run is lost: the next call polls all the same. */
  lemma QuitOutsideIsLost(s: State, before: seq<Step>)
    requires IsRun(s, before) && After(s, before).pc.Outside?
    ensures var steps := before + [LoopQuit] + [Start] + [TestQuit];
            IsRun(s, steps) && After(s, steps).pc.Polling? && !After(s, steps).quit
  {
    Then(s, before, LoopQuit);
    Then(s, before + [LoopQuit], Start);
    Then(s, before + [LoopQuit] + [Start], TestQuit);
  }
}
