/**
 TimerQueue: an ordered set of (expiration, sequence) entries, the set of active sequences,
 the owner map, the set of timers cancelled while callbacks run, and the timerfd.

 The first part gives each operation as a function of the queue's value. The class runs
 them in place. The last part is a step machine over every interleaving of clock ticks,
 adds, cancels and expiry batches, where a callback is any sequence of adds and cancels
 between two RunNext steps.
 */
module Timers {
  import opened Bytes

  const MIN_DELAY := 100
  const MICROS_PER_SECOND := 1000 * 1000

  /** A Timer: when it expires, and its interval; it repeats when the interval is positive. */
  datatype Timer = Timer(expiration: int, interval: int)
  {
    predicate Repeat() {
      interval > 0
    }

    /** Timer::restart. */
    function Restart(now: int): Timer {
      Timer(if Repeat() then now + interval else 0, interval)
    }
  }

  datatype Entry = Entry(when: int, id: int)

  /** The order of std::pair<Timestamp, TimerSequence>. */
  predicate Less(e: Entry, f: Entry) {
    e.when < f.when || (e.when == f.when && e.id < f.id)
  }

  datatype Queue = Queue(
    timers: set<Entry>,
    active: set<int>,
    calling: bool,
    canceling: set<int>,
    owners: map<int, Timer>)

  /** The kernel's timer: its deadline if armed, whether an expiry is unread, and when it was last armed. */
  datatype TimerFd = TimerFd(deadline: Option<int>, ticks: bool, armedAt: int)

  // ---------- the ordered set ----------

  lemma {:induction false} LeastExists(s: set<Entry>)
    requires s != {}
    ensures exists e :: e in s && forall f :: f in s ==> !Less(f, e)
  {
    var x :| x in s;
    var others := s - {x};
    if others == {} {
      assert s == {x};
      assert x in s && forall f :: f in s ==> !Less(f, x);
    } else {
      LeastExists(others);
      var y :| y in others && forall f :: f in others ==> !Less(f, y);
      var e := if Less(x, y) then x else y;
      forall f | f in s ensures !Less(f, e) {
        assert f == x || f in others;
      }
    }
  }

  /** *begin(). */
  ghost function Least(s: set<Entry>): (e: Entry)
    requires s != {}
    ensures e in s && forall f :: f in s ==> !Less(f, e)
  {
    LeastExists(s);
    var e :| e in s && forall f :: f in s ==> !Less(f, e);
    e
  }

  /** The elements in iteration order. */
  ghost function InOrder(s: set<Entry>): (r: seq<Entry>)
    ensures forall e :: e in r <==> e in s
    ensures forall i, j :: 0 <= i < j < |r| ==> Less(r[i], r[j])
  {
    if s == {} then []
    else
      var m := Least(s);
      var r := InOrder(s - {m});
      assert forall i :: 0 <= i < |r| ==> r[i] in s - {m} && Less(m, r[i]);
      [m] + r
  }

  // ---------- howMuchTimeFromNow and resetTimerfd ----------

  datatype Timespec = Timespec(seconds: int, nanos: int)

  function HowMuchTimeFromNow(when: int, now: int): Timespec {
    var micros := if when - now < MIN_DELAY then MIN_DELAY else when - now;
    Timespec(micros / MICROS_PER_SECOND, micros % MICROS_PER_SECOND * 1000)
  }

  /** timerfd_settime with a relative time: a zero time disarms, any other arms; the expiry count is cleared. */
  function SetTime(ts: Timespec, now: int): TimerFd {
    if ts == Timespec(0, 0) then TimerFd(None, false, now)
    else TimerFd(Some(now + ts.seconds * MICROS_PER_SECOND + ts.nanos / 1000), false, now)
  }

  function ResetTimerFd(when: int, now: int): TimerFd {
    SetTime(HowMuchTimeFromNow(when, now), now)
  }

  /** The clock reaching a deadline makes the descriptor readable. */
  function Elapsed(fd: TimerFd, t: int): TimerFd {
    if fd.deadline.Some? && fd.deadline.value <= t then fd.(deadline := None, ticks := true) else fd
  }

  /** The timespec is legal and never zero, so arming never disarms, and the deadline is the later of the two bounds. */
  lemma ArmingArms(when: int, now: int)
    ensures var ts := HowMuchTimeFromNow(when, now); ts.seconds >= 0 && 0 <= ts.nanos < 1_000_000_000
    ensures ResetTimerFd(when, now) == TimerFd(Some(if when < now + 100 then now + 100 else when), false, now)
  {
    var micros := if when - now < MIN_DELAY then MIN_DELAY else when - now;
    var r := micros % MICROS_PER_SECOND;
    assert micros == micros / MICROS_PER_SECOND * MICROS_PER_SECOND + r;
    assert r * 1000 / 1000 == r;
  }

  // ---------- the operations ----------

  ghost predicate EarliestChanged(q: Queue, when: int) {
    q.timers == {} || when < Least(q.timers).when
  }

  function Inserted(q: Queue, id: int, when: int): Queue {
    q.(timers := q.timers + {Entry(when, id)}, active := q.active + {id})
  }

  function Added(q: Queue, id: int, t: Timer): Queue {
    Inserted(q, id, t.expiration).(owners := q.owners[id := t])
  }

  function Cancelled(q: Queue, id: int): Queue
    requires id in q.active ==> id in q.owners
  {
    if id <= 0 then q
    else if id in q.active then
      q.(timers := q.timers - {Entry(q.owners[id].expiration, id)},
         active := q.active - {id},
         owners := q.owners - {id})
    else if q.calling then q.(canceling := q.canceling + {id})
    else q
  }

  function DueAt(timers: set<Entry>, now: int): set<Entry> {
    set e | e in timers && e.when <= now
  }

  function LaterThan(timers: set<Entry>, now: int): set<Entry> {
    set e | e in timers && e.when > now
  }

  ghost function Expired(q: Queue, now: int): (r: seq<Entry>) {
    InOrder(DueAt(q.timers, now))
  }

  /** getExpired takes exactly the entries at or before now, by time and then by sequence. */
  lemma ExpiredExactly(q: Queue, now: int)
    ensures forall e :: e in Expired(q, now) <==> e in q.timers && e.when <= now
    ensures forall i, j :: 0 <= i < j < |Expired(q, now)| ==>
              var e, f := Expired(q, now)[i], Expired(q, now)[j];
              e.when < f.when || (e.when == f.when && e.id < f.id)
  {
    var r := Expired(q, now);
    forall i, j | 0 <= i < j < |r| ensures r[i].when < r[j].when || (r[i].when == r[j].when && r[i].id < r[j].id) {
      assert Less(r[i], r[j]);
    }
  }

  /** The queue when the callbacks of a batch start to run. */
  function Collected(q: Queue, now: int): Queue {
    q.(timers := LaterThan(q.timers, now),
       active := q.active - (set e | e in DueAt(q.timers, now) :: e.id),
       calling := true,
       canceling := {})
  }

  function Ids(batch: seq<Entry>): (s: set<int>)
    ensures forall i :: 0 <= i < |batch| ==> batch[i].id in s
    ensures forall id :: id in s ==> exists i :: 0 <= i < |batch| && batch[i].id == id
  {
    set e | e in batch :: e.id
  }

  /** Owned with a positive interval, and not cancelled in this batch. */
  predicate Kept(q: Queue, id: int) {
    id in q.owners && q.owners[id].interval > 0 && id !in q.canceling
  }

  function ResetOne(q: Queue, id: int, now: int): Queue {
    if id !in q.owners then q
    else if q.owners[id].Repeat() && id !in q.canceling then
      var t := q.owners[id].Restart(now);
      Inserted(q, id, t.expiration).(owners := q.owners[id := t])
    else q.(owners := q.owners - {id})
  }

  /** The loop of TimerQueue::reset over a batch. */
  function ResetAll(q: Queue, batch: seq<Entry>, now: int): Queue {
    if batch == [] then q else ResetOne(ResetAll(q, batch[..|batch| - 1], now), batch[|batch| - 1].id, now)
  }

  // ---------- agreement of the indexes ----------

  /**
   The entries are exactly the active timers at their owners' expirations, and the owners
   are the active timers together with those of the batch that has not been reset.
   */
  ghost predicate Agree(q: Queue, batch: set<int>) {
    && (forall e :: e in q.timers ==> e.id in q.active && e.id in q.owners && q.owners[e.id].expiration == e.when)
    && (forall id :: id in q.active ==> id in q.owners && Entry(q.owners[id].expiration, id) in q.timers)
    && q.owners.Keys == q.active + batch
    && q.active !! batch
  }

  function IdsIn(timers: set<Entry>): set<int> {
    set e | e in timers :: e.id
  }

  lemma {:induction false} OneEntryPerId(timers: set<Entry>)
    requires forall e, f :: e in timers && f in timers && e.id == f.id ==> e == f
    ensures |IdsIn(timers)| == |timers|
    decreases |timers|
  {
    if timers == {} {
      assert IdsIn(timers) == {};
    } else {
      var e :| e in timers;
      assert IdsIn(timers) == IdsIn(timers - {e}) + {e.id};
      OneEntryPerId(timers - {e});
    }
  }

  /** assert(timers_.size() == activeTimers_.size()). */
  lemma SizesAgree(q: Queue, batch: set<int>)
    requires Agree(q, batch)
    ensures |q.timers| == |q.active|
  {
    forall id | id in q.active ensures id in IdsIn(q.timers) {
      assert Entry(q.owners[id].expiration, id) in q.timers;
    }
    assert IdsIn(q.timers) == q.active;
    OneEntryPerId(q.timers);
  }

  /** What insertTimer asserts holds in mid-batch too: a timer of the batch is in neither set. */
  lemma MayInsert(q: Queue, batch: set<int>, id: int)
    requires Agree(q, batch) && id in batch
    ensures id in q.owners && id !in q.active && (forall e :: e in q.timers ==> e.id != id) && |q.timers| == |q.active|
  {
    SizesAgree(q, batch);
  }

  lemma AddedAgrees(q: Queue, batch: set<int>, id: int, t: Timer)
    requires Agree(q, batch) && id !in q.owners
    ensures id !in q.active && forall e :: e in q.timers ==> e.id != id
    ensures Agree(Added(q, id, t), batch)
  {
  }

  lemma CancelledAgrees(q: Queue, batch: set<int>, id: int)
    requires Agree(q, batch)
    ensures Agree(Cancelled(q, id), batch)
  {
  }

  lemma ExpiredIds(q: Queue, now: int)
    ensures Ids(Expired(q, now)) == IdsIn(DueAt(q.timers, now))
  {
    var r := Expired(q, now);
    forall id | id in IdsIn(DueAt(q.timers, now)) ensures id in Ids(r) {
      var e :| e in DueAt(q.timers, now) && e.id == id;
      assert e in r;
    }
  }

  lemma CollectedAgrees(q: Queue, now: int)
    requires Agree(q, {})
    ensures Agree(Collected(q, now), Ids(Expired(q, now)))
  {
    ExpiredIds(q, now);
    var c := Collected(q, now);
    forall id | id in c.active ensures Entry(q.owners[id].expiration, id) in c.timers {
      assert Entry(q.owners[id].expiration, id) in q.timers;
    }
  }

  /** The queue with the due entries and their timers taken off the two sets, before the batch is marked. */
  ghost function WithoutDue(q: Queue, now: int): Queue {
    q.(timers := LaterThan(q.timers, now), active := q.active - Ids(Expired(q, now)))
  }

  lemma TakenAgrees(q: Queue, now: int)
    requires Agree(q, {})
    ensures Agree(WithoutDue(q, now), Ids(Expired(q, now))) && Ids(Expired(q, now)) <= q.active
    ensures WithoutDue(q, now) == Collected(q, now).(calling := q.calling, canceling := q.canceling)
    ensures Distinct(Expired(q, now)) && |q.timers| == |q.active|
  {
    SizesAgree(q, {});
    DistinctExpired(q, now);
    CollectedAgrees(q, now);
    ExpiredIds(q, now);
    var r := Expired(q, now);
    forall id | id in Ids(r) ensures id in q.active {
      var i :| 0 <= i < |r| && r[i].id == id;
      assert r[i] in r;
    }
  }

  lemma ResetOneAgrees(q: Queue, batch: set<int>, id: int, now: int)
    requires Agree(q, batch) && id in batch
    ensures Agree(ResetOne(q, id, now), batch - {id})
    ensures ResetOne(q, id, now).canceling == q.canceling
    ensures forall x :: x in q.owners && x != id ==>
              x in ResetOne(q, id, now).owners && ResetOne(q, id, now).owners[x] == q.owners[x]
  {
  }

  predicate Distinct(batch: seq<Entry>) {
    forall i, j :: 0 <= i < j < |batch| ==> batch[i].id != batch[j].id
  }

  /** `r` is `q` with the timers `ids` reset: the kept ones active at now + interval, the others freed. */
  ghost predicate ResetTo(q: Queue, r: Queue, ids: set<int>, now: int) {
    && r.canceling == q.canceling && r.calling == q.calling
    && r.active == q.active + (set id | id in ids && Kept(q, id))
    && (forall e :: e in q.timers ==> e in r.timers)
    && (forall e :: e in r.timers && e !in q.timers ==> Kept(q, e.id) && e.when == now + q.owners[e.id].interval)
    && (forall id :: id in r.owners ==> id in q.owners && r.owners[id].interval == q.owners[id].interval)
    && (forall id :: id in q.owners && id !in ids ==> id in r.owners && r.owners[id] == q.owners[id])
  }

  /** Of the timers `ids`, exactly the kept ones are still owned, with their new expiration and an entry at it. */
  ghost predicate Restarted(q: Queue, r: Queue, ids: set<int>, now: int) {
    forall id :: id in ids ==>
      && (id in r.owners <==> Kept(q, id))
      && (Kept(q, id) ==>
            && r.owners[id] == Timer(now + q.owners[id].interval, q.owners[id].interval)
            && Entry(now + q.owners[id].interval, id) in r.timers)
  }

  lemma ResetOneMore(q: Queue, r: Queue, ids: set<int>, id: int, now: int)
    requires ResetTo(q, r, ids, now) && id in q.owners && id !in ids
    ensures ResetTo(q, ResetOne(r, id, now), ids + {id}, now)
  {
    assert Kept(r, id) == Kept(q, id);
  }

  /**
   After the batch is reset, its repeating, uncancelled timers are active at now + interval and the
   others are freed.
   */
  lemma {:induction false} ResetAllResult(q: Queue, batch: seq<Entry>, rest: set<int>, now: int)
    requires Agree(q, Ids(batch) + rest) && Distinct(batch) && Ids(batch) !! rest
    ensures Agree(ResetAll(q, batch, now), rest)
    ensures ResetTo(q, ResetAll(q, batch, now), Ids(batch), now)
    decreases |batch|
  {
    if batch == [] {
      assert Ids(batch) + rest == rest;
    } else {
      var front, last := batch[..|batch| - 1], batch[|batch| - 1].id;
      IdsOfLast(batch);
      assert Ids(batch) + rest == Ids(front) + (rest + {last});
      ResetAllResult(q, front, rest + {last}, now);
      var r := ResetAll(q, front, now);
      ResetOneAgrees(r, rest + {last}, last, now);
      assert rest + {last} - {last} == rest;
      ResetOneMore(q, r, Ids(front), last, now);
    }
  }

  lemma RestartOneMore(q: Queue, r: Queue, ids: set<int>, id: int, now: int)
    requires Restarted(q, r, ids, now) && id in r.owners && id in q.owners && r.owners[id] == q.owners[id] && id !in ids
    requires r.canceling == q.canceling
    ensures Restarted(q, ResetOne(r, id, now), ids + {id}, now)
  {
    assert Kept(r, id) == Kept(q, id);
  }

  /** The timers of a batch with a positive interval that were not cancelled come back, and no others. */
  lemma {:induction false} RestartsKept(q: Queue, batch: seq<Entry>, rest: set<int>, now: int)
    requires Agree(q, Ids(batch) + rest) && Distinct(batch) && Ids(batch) !! rest
    ensures Restarted(q, ResetAll(q, batch, now), Ids(batch), now)
    decreases |batch|
  {
    if batch != [] {
      var front, last := batch[..|batch| - 1], batch[|batch| - 1].id;
      IdsOfLast(batch);
      assert Ids(batch) + rest == Ids(front) + (rest + {last});
      ResetAllResult(q, front, rest + {last}, now);
      RestartsKept(q, front, rest + {last}, now);
      RestartOneMore(q, ResetAll(q, front, now), Ids(front), last, now);
    }
  }

  lemma IdsOfFirst(batch: seq<Entry>)
    requires batch != [] && Distinct(batch)
    ensures Ids(batch[1..]) == Ids(batch) - {batch[0].id}
  {
    assert batch == [batch[0]] + batch[1..];
  }

  lemma {:induction false} ResetAllCalling(q: Queue, batch: seq<Entry>, now: int)
    ensures ResetAll(q, batch, now).calling == q.calling
  {
    if batch != [] {
      ResetAllCalling(q, batch[..|batch| - 1], now);
    }
  }

  lemma IdsOfLast(batch: seq<Entry>)
    requires batch != [] && Distinct(batch)
    ensures var front, last := batch[..|batch| - 1], batch[|batch| - 1].id;
            Ids(batch) == Ids(front) + {last} && last !in Ids(front) && Distinct(front)
  {
    assert batch == batch[..|batch| - 1] + [batch[|batch| - 1]];
  }

  // ---------- the class ----------

  /**
   What happens while a callback runs: timers it adds (already numbered), timers it cancels,
   and the clock reaching a time, which may make the kernel timer expire.
   */
  datatype Action = AddTimer(id: int, timer: Timer, clock: int) | CancelTimer(id: int) | Elapse(clock: int)

  datatype QueueFd = QueueFd(q: Queue, fd: TimerFd)

  ghost function AddedInLoop(s: QueueFd, id: int, t: Timer, clock: int): QueueFd {
    QueueFd(Added(s.q, id, t), if EarliestChanged(s.q, t.expiration) then ResetTimerFd(t.expiration, clock) else s.fd)
  }

  ghost predicate Indexed(q: Queue) {
    forall id :: id in q.active ==> id in q.owners
  }

  ghost function Performed(s: QueueFd, actions: seq<Action>): QueueFd
    requires Indexed(s.q)
    decreases |actions|
  {
    if actions == [] then s
    else
      match actions[0]
      case AddTimer(id, t, clock) => Performed(AddedInLoop(s, id, t, clock), actions[1..])
      case CancelTimer(id) => Performed(s.(q := Cancelled(s.q, id)), actions[1..])
      case Elapse(clock) => Performed(s.(fd := Elapsed(s.fd, clock)), actions[1..])
  }

  ghost function ResetInLoop(s: QueueFd, batch: seq<Entry>, now: int, clock: int): QueueFd {
    var q := ResetAll(s.q, batch, now);
    QueueFd(q, if q.timers != {} && Least(q.timers).when > 0 then ResetTimerFd(Least(q.timers).when, clock) else s.fd)
  }

  function AddIds(actions: seq<Action>): set<int> {
    set a | a in actions && a.AddTimer? :: a.id
  }

  /** Every timer added is new: its number is not owned, and no number is added twice. */
  predicate AddsAreNew(owned: set<int>, actions: seq<Action>) {
    && (forall i :: 0 <= i < |actions| && actions[i].AddTimer? ==> actions[i].id !in owned)
    && (forall i, j :: 0 <= i < j < |actions| && actions[i].AddTimer? && actions[j].AddTimer? ==>
                         actions[i].id != actions[j].id)
  }

  lemma AddsOfParts(owned: set<int>, a: seq<Action>, b: seq<Action>, later: set<int>)
    requires AddsAreNew(owned, a + b) && later <= owned + AddIds(a)
    ensures AddsAreNew(owned, a) && AddsAreNew(later, b)
  {
    var ab := a + b;
    forall i | 0 <= i < |a| ensures ab[i] == a[i] {}
    forall i | 0 <= i < |b| ensures ab[|a| + i] == b[i] {}
    forall i | 0 <= i < |b| && b[i].AddTimer? ensures b[i].id !in later {
      assert ab[|a| + i].id !in owned;
      forall x | x in a && x.AddTimer? ensures x.id != b[i].id {
        var k :| 0 <= k < |a| && a[k] == x;
        assert ab[k].id != ab[|a| + i].id;
      }
    }
  }

  ghost function PerformedOne(s: QueueFd, action: Action): QueueFd
    requires Indexed(s.q)
  {
    match action
    case AddTimer(id, t, clock) => AddedInLoop(s, id, t, clock)
    case CancelTimer(id) => s.(q := Cancelled(s.q, id))
    case Elapse(clock) => s.(fd := Elapsed(s.fd, clock))
  }

  lemma PerformedFirst(s: QueueFd, actions: seq<Action>)
    requires Indexed(s.q) && actions != []
    ensures Indexed(PerformedOne(s, actions[0]).q)
    ensures Performed(s, actions) == Performed(PerformedOne(s, actions[0]), actions[1..])
  {
  }

  /** Whatever was added before it, the next action adds a timer that is not owned. */
  lemma NextAction(owned: set<int>, actions: seq<Action>, i: nat, now: set<int>)
    requires AddsAreNew(owned, actions) && i < |actions| && now <= owned + AddIds(actions[..i])
    ensures actions[i].AddTimer? ==> actions[i].id !in now
    ensures actions[i..][0] == actions[i] && actions[i..][1..] == actions[i + 1..]
    ensures AddIds(actions[..i]) + AddIds([actions[i]]) == AddIds(actions[..i + 1])
  {
    assert actions[..i + 1] == actions[..i] + [actions[i]];
    if actions[i].AddTimer? {
      forall a | a in actions[..i] && a.AddTimer? ensures a.id != actions[i].id {
        var k :| 0 <= k < i && actions[k] == a;
      }
    }
  }

  class TimerQueue {
    var timers: set<Entry>
    var activeTimers: set<int>
    var callingExpiredTimers: bool
    var cancelingTimers: set<int>
    var timerOwners: map<int, Timer>
    var timerfd: TimerFd
    ghost var batch: set<int>

    ghost function View(): Queue
      reads this
    {
      Queue(timers, activeTimers, callingExpiredTimers, cancelingTimers, timerOwners)
    }

    ghost function Whole(): QueueFd
      reads this
    {
      QueueFd(View(), timerfd)
    }

    ghost predicate Valid()
      reads this
    {
      Agree(View(), batch)
    }

    constructor ()
      ensures Valid() && View() == Queue({}, {}, false, {}, map[]) && batch == {} && timerfd == TimerFd(None, false, 0)
    {
      timers, activeTimers, callingExpiredTimers, cancelingTimers, timerOwners := {}, {}, false, {}, map[];
      timerfd, batch := TimerFd(None, false, 0), {};
    }

    /** std::ranges::begin of the ordered set. */
    method Begin() returns (e: Entry)
      requires timers != {}
      ensures e == Least(timers)
    {
      e :| e in timers;
      var rest := timers - {e};
      while rest != {}
        invariant rest <= timers && e in timers && forall f :: f in timers - rest ==> !Less(f, e)
        decreases rest
      {
        var f :| f in rest;
        ghost var least := e;
        if Less(f, e) {
          e := f;
        }
        rest := rest - {f};
        forall g | g in timers - rest ensures !Less(g, e) {
          assert g == f || !Less(g, least);
        }
      }
      assert timers - rest == timers;
    }

    method InsertTimer(id: int, timer: Timer) returns (earliestChanged: bool)
      requires id !in activeTimers && forall e :: e in timers ==> e.id != id
      requires |timers| == |activeTimers|
      modifies this`timers, this`activeTimers
      ensures View() == Inserted(old(View()), id, timer.expiration) && |timers| == |activeTimers|
      ensures earliestChanged == old(EarliestChanged(View(), timer.expiration))
    {
      earliestChanged := false;
      if timers == {} {
        earliestChanged := true;
      } else {
        var first := Begin();
        if timer.expiration < first.when {
          earliestChanged := true;
        }
      }
      assert Entry(timer.expiration, id) !in timers;
      timers := timers + {Entry(timer.expiration, id)};
      assert id !in activeTimers;
      activeTimers := activeTimers + {id};
    }

    method AddTimerInLoop(id: int, timer: Timer, clock: int)
      requires Valid() && id !in timerOwners
      modifies this
      ensures Valid() && batch == old(batch)
      ensures Whole() == AddedInLoop(old(Whole()), id, timer, clock)
    {
      assert |timers| == |activeTimers| by { SizesAgree(View(), batch); }
      AddedAgrees(View(), batch, id, timer);
      var earliestChanged := InsertTimer(id, timer);
      timerOwners := timerOwners[id := timer];
      if earliestChanged {
        timerfd := ResetTimerFd(timer.expiration, clock);
      }
    }

    method CancelInLoop(id: int)
      requires Valid()
      modifies this
      ensures Valid() && batch == old(batch) && timerfd == old(timerfd)
      ensures View() == Cancelled(old(View()), id)
    {
      assert |timers| == |activeTimers| by { SizesAgree(View(), batch); }
      CancelledAgrees(View(), batch, id);
      if id <= 0 {
        return;
      }
      if id in activeTimers {
        assert id in timerOwners;
        assert Entry(timerOwners[id].expiration, id) in timers;
        timers := timers - {Entry(timerOwners[id].expiration, id)};
        timerOwners := timerOwners - {id};
        activeTimers := activeTimers - {id};
      } else if callingExpiredTimers {
        cancelingTimers := cancelingTimers + {id};
      }
    }

    /** Copies and erases the front of the ordered set up to the first entry after `now`. */
    method TakeDue(now: int) returns (expired: seq<Entry>)
      modifies this`timers
      ensures expired == old(Expired(View(), now))
      ensures timers == LaterThan(old(timers), now)
    {
      expired := [];
      ghost var due, later := InOrder(DueAt(timers, now)), LaterThan(timers, now);
      while timers != {}
        invariant due == expired + InOrder(DueAt(timers, now))
        invariant LaterThan(timers, now) == later
        decreases timers
      {
        var first := Begin();
        if first.when > now {
          break;
        }
        FirstDue(timers, now);
        Assoc(expired, [first], InOrder(DueAt(timers - {first}, now)));
        expired := expired + [first];
        timers := timers - {first};
      }
      NoneDue(timers, now);
      assert expired + [] == expired;
    }

    method EraseActive(expired: seq<Entry>)
      requires Distinct(expired) && Ids(expired) <= activeTimers
      modifies this`activeTimers
      ensures activeTimers == old(activeTimers) - Ids(expired)
    {
      var i := 0;
      assert Ids(expired[..0]) == {};
      while i < |expired|
        invariant 0 <= i <= |expired|
        invariant activeTimers == old(activeTimers) - Ids(expired[..i])
      {
        assert expired[..i + 1] == expired[..i] + [expired[i]];
        assert Ids(expired[..i + 1]) == Ids(expired[..i]) + {expired[i].id};
        assert expired[i].id in activeTimers;
        activeTimers := activeTimers - {expired[i].id};
        i := i + 1;
      }
      assert expired[..i] == expired;
    }

    method TakeEntries(now: int) returns (expired: seq<Entry>)
      requires Distinct(Expired(View(), now)) && Ids(Expired(View(), now)) <= activeTimers
      modifies this`timers, this`activeTimers
      ensures expired == old(Expired(View(), now))
      ensures View() == WithoutDue(old(View()), now)
    {
      expired := TakeDue(now);
      EraseActive(expired);
    }

    /** Takes the entries with expiration <= now off the queue, in order. */
    method GetExpired(now: int) returns (expired: seq<Entry>)
      requires Valid() && batch == {}
      modifies this`timers, this`activeTimers, this`batch
      ensures Valid() && batch == Ids(expired)
      ensures expired == old(Expired(View(), now))
      ensures View() == Collected(old(View()), now).(calling := callingExpiredTimers, canceling := cancelingTimers)
    {
      ghost var q := View();
      TakenAgrees(q, now);
      ghost var r := WithoutDue(q, now);
      expired := TakeEntries(now);
      assert View() == r && expired == Expired(q, now);
      batch := Ids(expired);
      assert View() == r && Agree(r, batch);
    }

    method PerformOne(action: Action)
      requires Valid() && (action.AddTimer? ==> action.id !in timerOwners)
      modifies this
      ensures Valid() && batch == old(batch) && callingExpiredTimers == old(callingExpiredTimers)
      ensures Whole() == PerformedOne(old(Whole()), action)
      ensures timerOwners.Keys <= old(timerOwners.Keys) + AddIds([action])
    {
      match action {
        case AddTimer(id, timer, clock) =>
          AddTimerInLoop(id, timer, clock);
          assert action in [action];
        case CancelTimer(id) => CancelInLoop(id);
        case Elapse(clock) => timerfd := Elapsed(timerfd, clock);
      }
    }

    method Perform(actions: seq<Action>)
      requires Valid() && AddsAreNew(timerOwners.Keys, actions)
      modifies this
      ensures Valid() && batch == old(batch)
      ensures Whole() == Performed(old(Whole()), actions)
      ensures timerOwners.Keys <= old(timerOwners.Keys) + AddIds(actions)
              && callingExpiredTimers == old(callingExpiredTimers)
    {
      var i := 0;
      ghost var keys, goal := timerOwners.Keys, Performed(Whole(), actions);
      assert actions[0..] == actions && actions[..0] == [];
      while i < |actions|
        invariant 0 <= i <= |actions| && Valid() && batch == old(batch)
        invariant timerOwners.Keys <= keys + AddIds(actions[..i])
        invariant callingExpiredTimers == old(callingExpiredTimers)
        invariant Performed(Whole(), actions[i..]) == goal
      {
        NextAction(keys, actions, i, timerOwners.Keys);
        PerformedFirst(Whole(), actions[i..]);
        PerformOne(actions[i]);
        i := i + 1;
      }
      assert actions[i..] == [] && actions[..i] == actions;
    }

    /** The body of reset's loop for one entry of the batch. */
    method Restart(id: int, now: int)
      requires id in timerOwners && id !in activeTimers && (forall e :: e in timers ==> e.id != id)
      requires |timers| == |activeTimers|
      modifies this`timers, this`activeTimers, this`timerOwners
      ensures View() == ResetOne(old(View()), id, now) && |timers| == |activeTimers|
    {
      var timer := timerOwners[id];
      if timer.Repeat() && id !in cancelingTimers {
        timer := timer.Restart(now);
        timerOwners := timerOwners[id := timer];
        var _ := InsertTimer(id, timer);
      } else {
        timerOwners := timerOwners - {id};
      }
    }

    method ResetTimer(id: int, now: int)
      requires Valid() && id in batch
      modifies this
      ensures Valid() && batch == old(batch) - {id} && timerfd == old(timerfd)
      ensures View() == ResetOne(old(View()), id, now)
    {
      MayInsert(View(), batch, id);
      ResetOneAgrees(View(), batch, id, now);
      Restart(id, now);
      batch := batch - {id};
    }

    method ResetTimers(expired: seq<Entry>, now: int)
      requires Valid() && Distinct(expired) && batch == Ids(expired)
      modifies this
      ensures Valid() && batch == {} && timerfd == old(timerfd)
      ensures View() == ResetAll(old(View()), expired, now)
    {
      var i := 0;
      while i < |expired|
        invariant 0 <= i <= |expired|
        invariant batch == Ids(expired[i..]) && Valid() && timerfd == old(timerfd)
        invariant View() == ResetAll(old(View()), expired[..i], now)
      {
        assert expired[..i + 1][..i] == expired[..i];
        IdsOfFirst(expired[i..]);
        assert expired[i..][1..] == expired[i + 1..];
        ResetTimer(expired[i].id, now);
        i := i + 1;
      }
      assert expired[..i] == expired;
    }

    method Reset(expired: seq<Entry>, now: int, clock: int)
      requires Valid() && Distinct(expired) && batch == Ids(expired)
      modifies this
      ensures Valid() && batch == {}
      ensures Whole() == ResetInLoop(old(Whole()), expired, now, clock)
    {
      ResetTimers(expired, now);
      if timers != {} {
        var next := Begin();
        if next.when > 0 {
          timerfd := ResetTimerFd(next.when, clock);
        }
      }
    }

    /** Runs the callback of every expired timer: its owner is still there, whatever the callbacks before it did. */
    method RunExpired(expired: seq<Entry>, callbacks: seq<seq<Action>>) returns (ran: seq<int>)
      requires Valid() && batch == Ids(expired) && callingExpiredTimers
      requires |callbacks| == |expired| && AddsAreNew(timerOwners.Keys, Concat(callbacks))
      modifies this
      ensures Valid() && batch == old(batch) && callingExpiredTimers
      ensures |ran| == |expired| && forall k :: 0 <= k < |ran| ==> ran[k] == expired[k].id
      ensures Whole() == Performed(old(Whole()), Concat(callbacks))
    {
      ran := [];
      var i := 0;
      assert callbacks[0..] == callbacks;
      while i < |expired|
        invariant 0 <= i <= |expired| && Valid() && batch == Ids(expired) && callingExpiredTimers
        invariant |ran| == i && forall k :: 0 <= k < i ==> ran[k] == expired[k].id
        invariant AddsAreNew(timerOwners.Keys, Concat(callbacks[i..]))
        invariant Performed(Whole(), Concat(callbacks[i..])) == Performed(old(Whole()), Concat(callbacks))
      {
        if expired[i].id in timerOwners {
          ran := ran + [expired[i].id];
          assert callbacks[i..][1..] == callbacks[i + 1..];
          ghost var keys := timerOwners.Keys;
          AddsOfParts(keys, callbacks[i], Concat(callbacks[i + 1..]), keys);
          PerformedInParts(Whole(), callbacks[i], Concat(callbacks[i + 1..]));
          Perform(callbacks[i]);
          AddsOfParts(keys, callbacks[i], Concat(callbacks[i + 1..]), timerOwners.Keys);
        }
        i := i + 1;
      }
    }

    /**
     The timerfd became readable. `callbacks[i]` is what the callback of the i-th expired
     timer does; every one of them runs, for its owner is still there.
     */
    method HandleRead(now: int, callbacks: seq<seq<Action>>, clock: int) returns (ran: seq<int>)
      requires Valid() && batch == {} && !callingExpiredTimers
      requires |callbacks| == |Expired(View(), now)| && AddsAreNew(timerOwners.Keys, Concat(callbacks))
      modifies this
      ensures Valid() && batch == {} && !callingExpiredTimers
      ensures |ran| == |callbacks| && forall i :: 0 <= i < |ran| ==> ran[i] == old(Expired(View(), now))[i].id
      ensures Whole() ==
              old(var s := Performed(QueueFd(Collected(View(), now), timerfd.(ticks := false)), Concat(callbacks));
                  ResetInLoop(s.(q := s.q.(calling := false)), Expired(View(), now), now, clock))
    {
      timerfd := timerfd.(ticks := false);
      CollectedAgrees(View(), now);
      DistinctExpired(View(), now);
      var expired := GetExpired(now);
      callingExpiredTimers := true;
      cancelingTimers := {};
      ran := RunExpired(expired, callbacks);
      callingExpiredTimers := false;
      ResetAllCalling(View(), expired, now);
      Reset(expired, now, clock);
    }
  }

  lemma {:induction false} PerformedInParts(s: QueueFd, a: seq<Action>, b: seq<Action>)
    requires Indexed(s.q)
    ensures Indexed(Performed(s, a).q)
    ensures Performed(s, a + b) == Performed(Performed(s, a), b)
    decreases |a|
  {
    if a == [] {
      assert a + b == b;
    } else {
      assert (a + b)[1..] == a[1..] + b;
      match a[0]
      case AddTimer(id, t, clock) => PerformedInParts(AddedInLoop(s, id, t, clock), a[1..], b);
      case CancelTimer(id) => PerformedInParts(s.(q := Cancelled(s.q, id)), a[1..], b);
      case Elapse(clock) => PerformedInParts(s.(fd := Elapsed(s.fd, clock)), a[1..], b);
    }
  }

  lemma FirstDue(timers: set<Entry>, now: int)
    requires timers != {} && Least(timers).when <= now
    ensures InOrder(DueAt(timers, now)) == [Least(timers)] + InOrder(DueAt(timers - {Least(timers)}, now))
    ensures LaterThan(timers - {Least(timers)}, now) == LaterThan(timers, now)
  {
    var first, due := Least(timers), DueAt(timers, now);
    LeastOfPart(timers, due);
    assert due - {first} == DueAt(timers - {first}, now);
  }

  lemma NoneDue(timers: set<Entry>, now: int)
    requires timers == {} || Least(timers).when > now
    ensures InOrder(DueAt(timers, now)) == [] && LaterThan(timers, now) == timers
  {
    forall e | e in timers ensures e.when > now {
      assert !Less(e, Least(timers));
    }
    assert DueAt(timers, now) == {};
  }

  lemma LeastOfPart(s: set<Entry>, part: set<Entry>)
    requires part <= s && s != {} && Least(s) in part
    ensures Least(part) == Least(s)
  {
    var a, b := Least(s), Least(part);
    assert !Less(a, b) && !Less(b, a);
  }

  lemma DistinctExpired(q: Queue, now: int)
    requires Agree(q, {})
    ensures Distinct(Expired(q, now))
  {
    var r := Expired(q, now);
    forall i, j | 0 <= i < j < |r| ensures r[i].id != r[j].id {
      assert r[i] in r && r[j] in r && Less(r[i], r[j]);
    }
  }

  // ---------- every run ----------

  /**
   The queue, the kernel timer and the clock, with the timers constructed but not yet
   added, and the batch being handled: `done` of its callbacks have started.
   */
  datatype State = State(
    s: QueueFd,
    clock: int,
    created: nat,
    waiting: map<int, Timer>,
    batch: seq<Entry>,
    done: nat,
    now: int)

  datatype Step =
    | Tick(time: int)
    | Create(when: int, interval: int)
    | Add(id: int)
    | Cancel(id: int)
    | Begin
    | RunNext
    | Finish

  predicate Initial(s: State) {
    && s.s == QueueFd(Queue({}, {}, false, {}, map[]), TimerFd(None, false, 0))
    && s.clock > 0 && s.created == 0 && s.waiting == map[] && s.batch == [] && s.done == 0
  }

  predicate Enabled(s: State, step: Step) {
    match step
    case Tick(t) => t >= s.clock
    case Create(_, _) => true
    case Add(id) => id in s.waiting
    case Cancel(_) => true
    case Begin => !s.s.q.calling
    case RunNext => s.s.q.calling && s.done < |s.batch|
    case Finish => s.s.q.calling && s.done == |s.batch|
  }

  ghost function Apply(s: State, step: Step): State
    requires Enabled(s, step) && Indexed(s.s.q)
  {
    match step
    case Tick(t) => s.(clock := t, s := s.s.(fd := Elapsed(s.s.fd, t)))
    case Create(when, interval) =>
      s.(created := s.created + 1, waiting := s.waiting[s.created + 1 := Timer(when, interval)])
    case Add(id) => s.(s := AddedInLoop(s.s, id, s.waiting[id], s.clock), waiting := s.waiting - {id})
    case Cancel(id) => s.(s := s.s.(q := Cancelled(s.s.q, id)))
    case Begin =>
      s.(s := QueueFd(Collected(s.s.q, s.clock), s.s.fd.(ticks := false)),
         batch := Expired(s.s.q, s.clock), done := 0, now := s.clock)
    case RunNext => s.(done := s.done + 1)
    case Finish =>
      s.(s := ResetInLoop(s.s.(q := s.s.q.(calling := false)), s.batch, s.now, s.clock), batch := [], done := 0)
  }

  /** An expiry is unread, or the deadline is no later than the earliest entry or the shortest delay after arming. */
  ghost predicate WillFire(s: QueueFd)
    requires s.q.timers != {}
  {
    || s.fd.ticks
    || (&& s.fd.deadline.Some?
        && (s.fd.deadline.value <= Least(s.q.timers).when || s.fd.deadline.value <= s.fd.armedAt + MIN_DELAY))
  }

  ghost predicate Inv(s: State) {
    && Agree(s.s.q, Ids(s.batch)) && Distinct(s.batch) && s.done <= |s.batch|
    && (!s.s.q.calling ==> s.batch == [])
    && (forall id :: id in s.s.q.owners || id in s.waiting ==> 0 < id <= s.created)
    && s.s.q.owners.Keys !! s.waiting.Keys
    && s.clock > 0 && (s.s.q.calling ==> 0 < s.now)
    && NeverMissed(s)
  }

  /** Between batches a non-empty queue will fire; within one, that much is needed of entries not after time 0. */
  ghost predicate NeverMissed(s: State) {
    s.s.q.timers != {} && (!s.s.q.calling || Least(s.s.q.timers).when <= 0) ==> WillFire(s.s)
  }

  lemma InitialInv(s: State)
    requires Initial(s)
    ensures Inv(s)
  {
  }

  lemma LeastMoves(s: set<Entry>, e: Entry)
    ensures Least(s + {e}).when == if s == {} || e.when < Least(s).when then e.when else Least(s).when
  {
    var m := Least(s + {e});
    assert !Less(e, m);
    if s != {} {
      assert Least(s) in s + {e} && !Less(Least(s), m);
      assert m == e || !Less(m, Least(s));
    }
  }

  lemma LeastLater(s: set<Entry>, part: set<Entry>)
    requires part != {} && part <= s
    ensures Least(s).when <= Least(part).when
  {
    assert Least(part) in s;
  }

  lemma AddInv(s: State, id: int)
    requires Inv(s) && id in s.waiting
    ensures Inv(Apply(s, Add(id)))
  {
    var t := s.waiting[id];
    AddedAgrees(s.s.q, Ids(s.batch), id, t);
    LeastMoves(s.s.q.timers, Entry(t.expiration, id));
    ArmingArms(t.expiration, s.clock);
  }

  lemma CancelInv(s: State, id: int)
    requires Inv(s)
    ensures Inv(Apply(s, Cancel(id)))
  {
    CancelledAgrees(s.s.q, Ids(s.batch), id);
    var after := Cancelled(s.s.q, id);
    if after.timers != {} {
      LeastLater(s.s.q.timers, after.timers);
    }
  }

  lemma BeginInv(s: State)
    requires Inv(s) && !s.s.q.calling
    ensures Inv(Apply(s, Begin))
  {
    assert Ids(s.batch) == {};
    CollectedAgrees(s.s.q, s.clock);
    DistinctExpired(s.s.q, s.clock);
    var after := Apply(s, Begin).s.q;
    if after.timers != {} {
      assert Least(after.timers) in after.timers;
    }
  }

  lemma FinishInv(s: State)
    requires Inv(s) && Enabled(s, Finish)
    ensures Inv(Apply(s, Finish))
  {
    var q := s.s.q.(calling := false);
    assert Ids(s.batch) + {} == Ids(s.batch);
    ResetAllResult(q, s.batch, {}, s.now);
    var r := ResetAll(q, s.batch, s.now);
    assert Ids([]) == {};
    if r.timers != {} {
      var m := Least(r.timers);
      ArmingArms(m.when, s.clock);
      if m.when <= 0 {
        assert m in q.timers;
        LeastLater(r.timers, q.timers);
      }
    }
  }

  lemma StepInv(s: State, step: Step)
    requires Inv(s) && Enabled(s, step)
    ensures Inv(Apply(s, step))
  {
    match step
    case Tick(_) =>
    case Create(_, _) =>
    case Add(id) => AddInv(s, id);
    case Cancel(id) => CancelInv(s, id);
    case Begin => BeginInv(s);
    case RunNext =>
    case Finish => FinishInv(s);
  }

  /** Whether the steps can be taken one after another, and where they lead. */
  ghost predicate IsRun(s: State, steps: seq<Step>)
    decreases |steps|
  {
    steps == [] || (Enabled(s, steps[0]) && Indexed(s.s.q) && IsRun(Apply(s, steps[0]), steps[1..]))
  }

  ghost function After(s: State, steps: seq<Step>): State
    requires IsRun(s, steps)
    decreases |steps|
  {
    if steps == [] then s else After(Apply(s, steps[0]), steps[1..])
  }

  /**
   In every state of every run the indexes agree, whatever the callbacks did, and between
   batches a non-empty queue has an unread expiry or a timely deadline.
   */
  lemma {:induction false} EveryRun(s: State, steps: seq<Step>)
    requires Inv(s) && IsRun(s, steps)
    ensures Inv(After(s, steps))
    decreases |steps|
  {
    if steps != [] {
      StepInv(s, steps[0]);
      EveryRun(Apply(s, steps[0]), steps[1..]);
    }
  }

  /** How often the callback of timer `id` runs. */
  ghost function RunCount(s: State, steps: seq<Step>, id: int): nat
    requires IsRun(s, steps)
    decreases |steps|
  {
    if steps == [] then 0
    else
      (if steps[0] == RunNext && s.batch[s.done].id == id then 1 else 0)
      + RunCount(Apply(s, steps[0]), steps[1..], id)
  }

  predicate Due(s: State, id: int) {
    id in Ids(s.batch[if s.done <= |s.batch| then s.done else 0..])
  }

  /** The callback of a batch runs once: RunNext moves on, and no other step brings it back. */
  lemma DueMoves(s: State, step: Step, id: int)
    requires Inv(s) && Enabled(s, step)
    ensures step == RunNext ==>
              (Due(s, id) <==> s.batch[s.done].id == id || Due(Apply(s, step), id))
              && !(s.batch[s.done].id == id && Due(Apply(s, step), id))
    ensures step.Begin? ==> !Due(s, id) && (Due(Apply(s, step), id) ==> id in s.s.q.active)
    ensures step.Finish? ==> !Due(Apply(s, step), id)
    ensures step.Tick? || step.Create? || step.Add? || step.Cancel? ==> Due(Apply(s, step), id) == Due(s, id)
  {
    if step == RunNext {
      assert s.batch[s.done..] == [s.batch[s.done]] + s.batch[s.done + 1..];
    }
    if step.Begin? {
      var r := Expired(s.s.q, s.clock);
      forall x | x in Ids(r) ensures x in s.s.q.active {
        var i :| 0 <= i < |r| && r[i].id == x;
        assert r[i] in r;
      }
    }
  }

  /** A timer that does not repeat, wherever it is. */
  predicate OneShot(s: State, id: int) {
    && 0 < id <= s.created
    && (id in s.waiting ==> s.waiting[id].interval <= 0)
    && (id in s.s.q.owners ==> s.s.q.owners[id].interval <= 0)
  }

  /** The runs a one-shot timer has left: one while it waits, is active or is due. */
  function RunsLeft(s: State, id: int): nat {
    if id in s.waiting || id in s.s.q.active || Due(s, id) then 1 else 0
  }

  /** Finishing a batch activates exactly its repeating, uncancelled timers. */
  lemma FinishResult(s: State, id: int)
    requires Inv(s) && Enabled(s, Finish)
    ensures var after := Apply(s, Finish).s.q;
            && (id in after.active <==> id in s.s.q.active || (id in Ids(s.batch) && Kept(s.s.q, id)))
            && (id in after.owners ==> id in s.s.q.owners && after.owners[id].interval == s.s.q.owners[id].interval)
  {
    assert Ids(s.batch) + {} == Ids(s.batch);
    ResetAllResult(s.s.q.(calling := false), s.batch, {}, s.now);
  }

  /** The runs of a one-shot timer that a step uses up come off what it has left. */
  predicate UsesUp(s: State, step: Step, id: int, t: State) {
    (if step == RunNext && s.done < |s.batch| && s.batch[s.done].id == id then 1 else 0) + RunsLeft(t, id)
    <= RunsLeft(s, id)
  }

  lemma OneShotBegin(s: State, id: int)
    requires Inv(s) && Enabled(s, Begin) && OneShot(s, id)
    ensures OneShot(Apply(s, Begin), id) && UsesUp(s, Begin, id, Apply(s, Begin))
  {
    DueMoves(s, Begin, id);
  }

  lemma OneShotRun(s: State, id: int)
    requires Inv(s) && Enabled(s, RunNext) && OneShot(s, id)
    ensures OneShot(Apply(s, RunNext), id) && UsesUp(s, RunNext, id, Apply(s, RunNext))
  {
    DueMoves(s, RunNext, id);
    assert s.batch[s.done].id in Ids(s.batch);
  }

  lemma OneShotFinish(s: State, id: int)
    requires Inv(s) && Enabled(s, Finish) && OneShot(s, id)
    ensures OneShot(Apply(s, Finish), id) && UsesUp(s, Finish, id, Apply(s, Finish))
  {
    DueMoves(s, Finish, id);
    FinishResult(s, id);
  }

  lemma OneShotAdd(s: State, x: int, id: int)
    requires Inv(s) && Enabled(s, Add(x)) && OneShot(s, id)
    ensures OneShot(Apply(s, Add(x)), id) && UsesUp(s, Add(x), id, Apply(s, Add(x)))
  {
    DueMoves(s, Add(x), id);
  }

  lemma OneShotCancel(s: State, x: int, id: int)
    requires Inv(s) && OneShot(s, id)
    ensures OneShot(Apply(s, Cancel(x)), id) && UsesUp(s, Cancel(x), id, Apply(s, Cancel(x)))
  {
    DueMoves(s, Cancel(x), id);
  }

  lemma OneShotStep(s: State, step: Step, id: int)
    requires Inv(s) && Enabled(s, step) && OneShot(s, id)
    ensures OneShot(Apply(s, step), id) && UsesUp(s, step, id, Apply(s, step))
  {
    match step
    case Begin => OneShotBegin(s, id);
    case RunNext => OneShotRun(s, id);
    case Finish => OneShotFinish(s, id);
    case Add(x) => OneShotAdd(s, x, id);
    case Cancel(x) => OneShotCancel(s, x, id);
    case Tick(_) =>
    case Create(_, _) => assert id <= s.created;
  }

  /** A one-shot timer runs at most once in any run. */
  lemma {:induction false} OneShotRunsOnce(s: State, steps: seq<Step>, id: int)
    requires Inv(s) && IsRun(s, steps) && OneShot(s, id)
    ensures RunCount(s, steps, id) <= RunsLeft(s, id) <= 1
    decreases |steps|
  {
    if steps != [] {
      OneShotStep(s, steps[0], id);
      StepInv(s, steps[0]);
      OneShotRunsOnce(Apply(s, steps[0]), steps[1..], id);
    }
  }

  /** A timer that was added, is no longer active and, if its batch is being handled, is marked as cancelled. */
  predicate Dropped(s: State, id: int) {
    && 0 < id <= s.created && id !in s.waiting && id !in s.s.q.active
    && (id in Ids(s.batch) ==> id in s.s.q.canceling)
  }

  lemma DroppedStep(s: State, step: Step, id: int)
    requires Inv(s) && Enabled(s, step) && Dropped(s, id)
    ensures Dropped(Apply(s, step), id)
    ensures Due(Apply(s, step), id) ==> Due(s, id)
    ensures step == RunNext && s.batch[s.done].id == id ==> Due(s, id) && !Due(Apply(s, step), id)
  {
    DueMoves(s, step, id);
    match step
    case Tick(_) =>
    case Create(_, _) =>
    case Add(_) =>
    case Cancel(_) =>
    case Begin => assert Apply(s, step).batch[0..] == Apply(s, step).batch;
    case RunNext =>
    case Finish => FinishResult(s, id);
  }

  lemma {:induction false} DroppedForGood(s: State, steps: seq<Step>, id: int)
    requires Inv(s) && IsRun(s, steps) && Dropped(s, id)
    ensures RunCount(s, steps, id) <= if Due(s, id) then 1 else 0
    ensures id !in After(s, steps).s.q.active
    decreases |steps|
  {
    if steps != [] {
      DroppedStep(s, steps[0], id);
      StepInv(s, steps[0]);
      DroppedForGood(Apply(s, steps[0]), steps[1..], id);
    }
  }

  /**
   After a cancel of a timer already added, in whatever state, that timer runs at most once
   more, only if it is in the batch being handled and has not started, and it is never
   active again.
   */
  lemma CancelIsFinal(s: State, id: int, steps: seq<Step>)
    requires Inv(s) && 0 < id <= s.created && id !in s.waiting
    requires IsRun(Apply(s, Cancel(id)), steps)
    ensures RunCount(Apply(s, Cancel(id)), steps, id) <= if Due(s, id) then 1 else 0
    ensures id !in After(Apply(s, Cancel(id)), steps).s.q.active
  {
    StepInv(s, Cancel(id));
    DueMoves(s, Cancel(id), id);
    DroppedForGood(Apply(s, Cancel(id)), steps, id);
  }

  lemma Prefixed(s: State, step: Step, steps: seq<Step>, id: int)
    requires Inv(s) && Enabled(s, step) && IsRun(Apply(s, step), steps)
    ensures IsRun(s, [step] + steps)
    ensures RunCount(s, [step] + steps, id) ==
            (if step == RunNext && s.batch[s.done].id == id then 1 else 0) + RunCount(Apply(s, step), steps, id)
  {
    assert ([step] + steps)[1..] == steps;
  }

  /** A callback that is due can be run. */
  lemma {:induction false} DueRuns(s: State, id: int) returns (steps: seq<Step>)
    requires Inv(s) && s.s.q.calling && Due(s, id)
    ensures IsRun(s, steps) && RunCount(s, steps, id) > 0 && NoCancel(steps, id)
    decreases |s.batch| - s.done
  {
    DueMoves(s, RunNext, id);
    StepInv(s, RunNext);
    steps := [];
    if s.batch[s.done].id != id {
      steps := DueRuns(Apply(s, RunNext), id);
    }
    Prefixed(s, RunNext, steps, id);
    steps := [RunNext] + steps;
  }

  /** Once a timer is active, with no batch at hand and its time reached, its batch begins. */
  lemma ActiveIsDue(s: State, id: int)
    requires Inv(s) && !s.s.q.calling && id in s.s.q.active && s.s.q.owners[id].expiration <= s.clock
    ensures Due(Apply(s, Begin), id)
  {
    var t, e := Apply(s, Begin), Entry(s.s.q.owners[id].expiration, id);
    assert e in DueAt(s.s.q.timers, s.clock) && e in t.batch;
    assert t.batch[0..] == t.batch;
  }

  /** From any state a timer still waiting to be added can come to run. */
  lemma {:induction false} WaitingRuns(s: State, id: int) returns (steps: seq<Step>)
    requires Inv(s) && id in s.waiting
    ensures IsRun(s, steps) && RunCount(s, steps, id) > 0
    decreases if s.s.q.calling then |s.batch| - s.done + 1 else 0
  {
    if s.s.q.calling {
      var step := if s.done < |s.batch| then RunNext else Finish;
      StepInv(s, step);
      ResetAllCalling(s.s.q.(calling := false), s.batch, s.now);
      steps := WaitingRuns(Apply(s, step), id);
      Prefixed(s, step, steps, id);
      steps := [step] + steps;
    } else {
      steps := IdleRuns(s, id);
    }
  }

  lemma IdleRuns(s: State, id: int) returns (steps: seq<Step>)
    requires Inv(s) && id in s.waiting && !s.s.q.calling
    ensures IsRun(s, steps) && RunCount(s, steps, id) > 0
  {
    StepInv(s, Add(id));
    var runs := ActiveRuns(Apply(s, Add(id)), id);
    Prefixed(s, Add(id), runs, id);
    steps := [Add(id)] + runs;
  }

  /** In no continuation does the timer run again, but for a callback that is due, or become active. */
  ghost predicate Gone(s: State, id: int) {
    forall steps :: IsRun(s, steps) ==>
      RunCount(s, steps, id) <= (if Due(s, id) then 1 else 0) && id !in After(s, steps).s.q.active
  }

  /**
   A cancel is final exactly if the timer has been added. One that comes before the queued add
   does nothing, and in some continuation the timer runs.
   */
  lemma CancelFinalExactly(s: State, id: int)
    requires Inv(s) && 0 < id <= s.created
    ensures var t := Apply(s, Cancel(id));
            && (Gone(t, id) <==> id !in s.waiting)
            && (id in s.waiting ==> !Due(t, id) && exists steps :: IsRun(t, steps) && RunCount(t, steps, id) > 0)
  {
    var t := Apply(s, Cancel(id));
    StepInv(s, Cancel(id));
    DueMoves(s, Cancel(id), id);
    if id in s.waiting {
      assert !Due(t, id);
      var steps := WaitingRuns(t, id);
    } else {
      forall steps | IsRun(t, steps)
        ensures RunCount(t, steps, id) <= (if Due(t, id) then 1 else 0) && id !in After(t, steps).s.q.active
      {
        CancelIsFinal(s, id, steps);
      }
    }
  }

  // ---------- repeating timers ----------

  /** A timer with a positive interval that waits, is active or is in the batch, there not cancelled. */
  predicate Repeating(s: State, id: int) {
    || (id in s.waiting && s.waiting[id].interval > 0)
    || (&& id in s.s.q.owners && s.s.q.owners[id].interval > 0
        && (id in s.s.q.active || (id in Ids(s.batch) && id !in s.s.q.canceling)))
  }

  lemma FinishKeeps(s: State, id: int)
    requires Inv(s) && Enabled(s, Finish) && Repeating(s, id)
    ensures Repeating(Apply(s, Finish), id)
  {
    assert Ids(s.batch) + {} == Ids(s.batch);
    var q := s.s.q.(calling := false);
    ResetAllResult(q, s.batch, {}, s.now);
    RestartsKept(q, s.batch, {}, s.now);
  }

  lemma BeginKeeps(s: State, id: int)
    requires Inv(s) && Enabled(s, Begin) && Repeating(s, id)
    ensures Repeating(Apply(s, Begin), id)
  {
    ExpiredIds(s.s.q, s.clock);
  }

  lemma RepeatingStep(s: State, step: Step, id: int)
    requires Inv(s) && Enabled(s, step) && Repeating(s, id) && step != Cancel(id)
    ensures Repeating(Apply(s, step), id)
  {
    match step
    case Begin => BeginKeeps(s, id);
    case Finish => FinishKeeps(s, id);
    case Tick(_) =>
    case Create(_, _) =>
    case Add(_) =>
    case Cancel(_) =>
    case RunNext =>
  }

  /** A repeating timer that is not cancelled is never lost. */
  lemma {:induction false} RepeatingLasts(s: State, steps: seq<Step>, id: int)
    requires Inv(s) && IsRun(s, steps) && Repeating(s, id) && Cancel(id) !in steps
    ensures Repeating(After(s, steps), id)
    decreases |steps|
  {
    if steps != [] {
      assert steps[0] in steps;
      StepInv(s, steps[0]);
      RepeatingStep(s, steps[0], id);
      RepeatingLasts(Apply(s, steps[0]), steps[1..], id);
    }
  }

  lemma {:induction false} Joined(s: State, a: seq<Step>, b: seq<Step>, id: int)
    requires IsRun(s, a) && IsRun(After(s, a), b)
    ensures IsRun(s, a + b) && After(s, a + b) == After(After(s, a), b)
    ensures RunCount(s, a + b, id) == RunCount(s, a, id) + RunCount(After(s, a), b, id)
    decreases |a|
  {
    if a == [] {
      assert a + b == b;
    } else {
      assert (a + b)[1..] == a[1..] + b;
      Joined(Apply(s, a[0]), a[1..], b, id);
    }
  }

  predicate NoCancel(steps: seq<Step>, id: int) {
    Cancel(id) !in steps
  }

  /** From any state a repeating timer can be brought to run once more. */
  lemma {:induction false} RunsOnceMore(s: State, id: int) returns (steps: seq<Step>)
    requires Inv(s) && Repeating(s, id)
    ensures IsRun(s, steps) && RunCount(s, steps, id) > 0 && NoCancel(steps, id)
    decreases if id in s.waiting then 1 else 0, if s.s.q.calling then |s.batch| - s.done + 1 else 0
  {
    if s.s.q.calling {
      var step := if s.done < |s.batch| then RunNext else Finish;
      StepInv(s, step);
      RepeatingStep(s, step, id);
      ResetAllCalling(s.s.q.(calling := false), s.batch, s.now);
      steps := RunsOnceMore(Apply(s, step), id);
      Prefixed(s, step, steps, id);
      steps := [step] + steps;
    } else if id in s.waiting {
      StepInv(s, Add(id));
      RepeatingStep(s, Add(id), id);
      steps := RunsOnceMore(Apply(s, Add(id)), id);
      Prefixed(s, Add(id), steps, id);
      steps := [Add(id)] + steps;
    } else {
      steps := ActiveRuns(s, id);
    }
  }

  lemma ActiveRuns(s: State, id: int) returns (steps: seq<Step>)
    requires Inv(s) && !s.s.q.calling && id in s.s.q.active
    ensures IsRun(s, steps) && RunCount(s, steps, id) > 0 && NoCancel(steps, id)
  {
    var when := s.s.q.owners[id].expiration;
    var tick := Tick(if when <= s.clock then s.clock else when);
    StepInv(s, tick);
    var runs := TimelyRuns(Apply(s, tick), id);
    Prefixed(s, tick, runs, id);
    steps := [tick] + runs;
  }

  lemma TimelyRuns(s: State, id: int) returns (steps: seq<Step>)
    requires Inv(s) && !s.s.q.calling && id in s.s.q.active && s.s.q.owners[id].expiration <= s.clock
    ensures IsRun(s, steps) && RunCount(s, steps, id) > 0 && NoCancel(steps, id)
  {
    StepInv(s, Begin);
    ActiveIsDue(s, id);
    var runs := DueRuns(Apply(s, Begin), id);
    Prefixed(s, Begin, runs, id);
    steps := [Begin] + runs;
  }

  /** So it can run any number of times: in some continuation a repeating timer runs n times. */
  lemma {:induction false} RunsAnyNumber(s: State, id: int, n: nat) returns (steps: seq<Step>)
    requires Inv(s) && Repeating(s, id)
    ensures IsRun(s, steps) && RunCount(s, steps, id) >= n && NoCancel(steps, id)
    ensures Inv(After(s, steps)) && Repeating(After(s, steps), id)
    decreases n
  {
    steps := [];
    if n > 0 {
      var before := RunsAnyNumber(s, id, n - 1);
      var t := After(s, before);
      var more := RunsOnceMore(t, id);
      Joined(s, before, more, id);
      EveryRun(t, more);
      RepeatingLasts(t, more, id);
      steps := before + more;
    }
  }

  /** A batch begins with the expiry read, at the time read then, and with nothing cancelled in it yet. */
  lemma BatchBegins(s: State)
    requires Inv(s) && Enabled(s, Begin)
    ensures var t := Apply(s, Begin);
            && t.s.fd == s.s.fd.(ticks := false) && t.now == t.clock == s.clock && t.done == 0
            && t.s.q.calling && t.s.q.canceling == {} && t.s.q.owners == s.s.q.owners
            && forall e :: e in t.batch <==> e in s.s.q.timers && e.when <= s.clock
  {
    ExpiredExactly(s.s.q, s.clock);
  }

  /** A new timer has the next number and what it was made with; once added it is active, with an entry at its time. */
  lemma TimerIsAdded(s: State, when: int, interval: int)
    requires Inv(s)
    ensures var t := Apply(s, Create(when, interval));
            && s.created + 1 !in s.waiting && s.created + 1 !in s.s.q.owners
            && t.waiting == s.waiting[s.created + 1 := Timer(when, interval)] && t.created == s.created + 1
            && t.s == s.s
            && var u := Apply(t, Add(s.created + 1));
               && s.created + 1 in u.s.q.active && Entry(when, s.created + 1) in u.s.q.timers
               && u.s.q.owners == s.s.q.owners[s.created + 1 := Timer(when, interval)] && u.waiting == s.waiting
  {
    assert s.waiting[s.created + 1 := Timer(when, interval)] - {s.created + 1} == s.waiting;
  }

  // ---------- never early ----------

  /** Every entry of the batch at hand was due when the batch was taken. */
  predicate InTime(s: State) {
    s.now <= s.clock && forall i :: 0 <= i < |s.batch| ==> s.batch[i].when <= s.now
  }

  lemma InTimeStep(s: State, step: Step)
    requires Inv(s) && Enabled(s, step) && (s.s.q.calling ==> InTime(s))
    ensures Apply(s, step).s.q.calling ==> InTime(Apply(s, step))
  {
    if step.Begin? {
      var r := Expired(s.s.q, s.clock);
      ExpiredExactly(s.s.q, s.clock);
      forall i | 0 <= i < |r| ensures r[i].when <= s.clock {
        assert r[i] in r;
      }
    } else if step.Finish? {
      ResetAllCalling(s.s.q.(calling := false), s.batch, s.now);
    }
  }

  /** In every run, no callback runs before its entry's time. */
  lemma {:induction false} NeverEarly(s: State, steps: seq<Step>)
    requires Inv(s) && IsRun(s, steps) && (s.s.q.calling ==> InTime(s))
    ensures var t := After(s, steps);
            && (t.s.q.calling ==> InTime(t))
            && (Enabled(t, RunNext) ==> t.batch[t.done].when <= t.clock)
    decreases |steps|
  {
    if steps != [] {
      StepInv(s, steps[0]);
      InTimeStep(s, steps[0]);
      NeverEarly(Apply(s, steps[0]), steps[1..]);
    }
  }

  // ---------- never late ----------

  /** An armed timer's deadline is still to come. */
  predicate Ahead(s: State) {
    s.s.fd.deadline.Some? ==> s.s.fd.deadline.value > s.clock
  }

  lemma AheadStep(s: State, step: Step)
    requires Inv(s) && Enabled(s, step) && Ahead(s)
    ensures Ahead(Apply(s, step))
  {
    match step
    case Add(id) => ArmingArms(s.waiting[id].expiration, s.clock);
    case Finish =>
      var q := ResetAll(s.s.q.(calling := false), s.batch, s.now);
      if q.timers != {} {
        ArmingArms(Least(q.timers).when, s.clock);
      }
    case _ =>
  }

  /**
   In every run: between batches, if the earliest entry's time has come and it is 100 us since
   the timer was armed, an expiry is unread, so that the batch can begin.
   */
  lemma {:induction false} NeverLate(s: State, steps: seq<Step>)
    requires Inv(s) && IsRun(s, steps) && Ahead(s)
    ensures var t := After(s, steps);
            && Ahead(t)
            && (forall e ::
                  !t.s.q.calling && e in t.s.q.timers && e.when <= t.clock && t.s.fd.armedAt + 100 <= t.clock ==>
                  t.s.fd.ticks)
    decreases |steps|
  {
    if steps != [] {
      StepInv(s, steps[0]);
      AheadStep(s, steps[0]);
      NeverLate(Apply(s, steps[0]), steps[1..]);
    }
  }
}
