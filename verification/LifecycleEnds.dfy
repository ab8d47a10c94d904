/**
 How a connection's life ends: which steps end it, that a life once ended runs its course, and
 that nothing else ends it.
 */
module LifecycleEnds {
  import Connection
  import opened Lifecycle

  /** An event that closes a connection that is up, once. */
  predicate Closing(r: Connection.Revents, read: Connection.Read) {
    (r.hup && !r.pollin)
    || ((r.pollin || r.pri || r.rdhup) && (read == Connection.Eof || read == Connection.Data(true)))
  }

  lemma UpIsLive(s: State, c: Id)
    requires Inv(s) && Known(s, c)
    ensures s.recs[c].conn.Live() <==> s.recs[c].history == [WasUp]
    ensures s.recs[c].conn.state == Connection.Disconnected <==> WasDown in s.recs[c].history
  {
    assert Stage(s, c);
    var n := |s.recs[c].history|;
    assert LIFE[..1] == [WasUp];
    assert n >= 2 ==> LIFE[..n][1] == WasDown;
    assert n <= 1 ==> WasDown !in LIFE[..n];
  }

  lemma CloseMarks(s: State, c: Id)
    requires Known(s, c) && s.recs[c].conn.Live()
    ensures c < |RunClose(s, c).recs| && WasDown in RunClose(s, c).recs[c].history
  {
    var h := s.recs[c].history + [WasDown];
    assert h[|h| - 1] == WasDown;
    assert (h + [WasErased])[|h| - 1] == WasDown;
  }

  /** In every run, an event at a connection that is up takes it down exactly if it is a closing one. */
  lemma EventTakesDown(s: State, steps: seq<Step>, c: Id, r: Connection.Revents, read: Connection.Read)
    requires Initial(s) && IsRun(s, steps) && Enabled(After(s, steps), Event(c, r, read))
             && !Connection.ClosesTwice(r, read)
    requires After(s, steps).recs[c].history == [WasUp]
    ensures var t, u := After(s, steps), Apply(After(s, steps), Event(c, r, read));
            && c < |u.recs| && (WasDown in u.recs[c].history <==> Closing(r, read))
            && (!Closing(r, read) ==> u == t)
  {
    var t := After(s, steps);
    InitialInv(s);
    EveryRun(s, steps);
    UpIsLive(t, c);
    Connection.ClosesExactly(t.recs[c].conn, r, read);
    CloseMarks(t, c);
  }

  // ---------- once ended ----------

  /** The connection is down, or a queued forceClose will take it down. */
  predicate Ending(s: State, c: Id) {
    Known(s, c) && (WasDown in s.recs[c].history || Count(s, s.recs[c].loop, ForceClose(c)) > 0)
  }

  lemma RemoveKeeps(s: State, c: Id, d: Id)
    requires Known(s, c) && Known(s, d)
    ensures var t := RunRemove(s, c);
            Known(t, d) && t.recs[d].loop == s.recs[d].loop && s.recs[d].history <= t.recs[d].history
            && forall l: nat :: Count(t, l, ForceClose(d)) >= Count(s, l, ForceClose(d))
  {
    if s.recs[c].listed {
      var v := Updated(s, c, s.recs[c].(listed := false, history := s.recs[c].history + [WasErased]));
      QueueCounts(v, s.recs[c].loop, Destroy(c));
    }
  }

  lemma CloseKeeps(s: State, c: Id, d: Id)
    requires Known(s, c) && Known(s, d) && s.recs[c].conn.Live()
    ensures var t := RunClose(s, c);
            Known(t, d) && t.recs[d].loop == s.recs[d].loop && s.recs[d].history <= t.recs[d].history
            && forall l: nat :: Count(t, l, ForceClose(d)) >= Count(s, l, ForceClose(d))
  {
    var r := s.recs[c];
    var v := Updated(s, c, r.(conn := Connection.Closed(r.conn), history := r.history + [WasDown]));
    assert forall l: nat, f: Functor :: Count(v, l, f) == Count(s, l, f);
    if r.loop == 0 {
      RemoveKeeps(v, c, d);
    } else {
      QueueCounts(v, 0, Remove(c));
    }
  }

  lemma Longer(h: seq<Mark>, k: seq<Mark>)
    requires h <= k && WasDown in h
    ensures WasDown in k
  {
  }

  lemma HeadKeepsEnding(s: State, l: nat, d: Id)
    requires Inv(s) && Enabled(s, RunFunctor(l)) && Ending(s, d)
    ensures Ending(RunHead(s, l), d)
  {
    var f := s.queues[l][0];
    var t := s.(queues := s.queues[l := s.queues[l][1..]]);
    PopCounts(s, l);
    Popped(s, l);
    match f
    case Establish(c) =>
    case Remove(c) => RemoveKeeps(t, c, d);
    case Destroy(c) =>
    case ForceClose(c) =>
      if t.recs[c].conn.Live() {
        CloseKeeps(t, c, d);
        CloseMarks(t, c);
      } else {
        assert Stage(t, c);
        UpIsLive(t, c);
      }
  }

  /** What is ending stays so, whatever happens. */
  lemma EndingStays(s: State, step: Step, d: Id)
    requires Inv(s) && Enabled(s, step) && Ending(s, d)
    ensures Ending(Apply(s, step), d)
  {
    match step
    case Accept(l) => AcceptKeeps(s, l, d);
    case RunFunctor(l) => HeadKeepsEnding(s, l, d);
    case Event(c, r, read) =>
      if s.recs[c].conn.Live() {
        CloseKeeps(s, c, d);
      }
    case ForceCloseHere(c) => HereKeeps(s, c, d);
    case ForceCloseAway(c) => AwayKeeps(s, c, d);
    case Shutdown(_) =>
    case SetWriting(_, _) =>
    case SetReading(_, _) =>
  }

  lemma HereKeeps(s: State, c: Id, d: Id)
    requires Inv(s) && Enabled(s, ForceCloseHere(c)) && Ending(s, d)
    ensures Ending(Apply(s, ForceCloseHere(c)), d)
  {
    if s.recs[c].conn.Live() {
      var t := WithConn(s, c, s.recs[c].conn.(state := Connection.Disconnecting));
      assert forall l: nat, f: Functor :: Count(t, l, f) == Count(s, l, f);
      CloseKeeps(t, c, d);
    }
  }

  lemma AwayKeeps(s: State, c: Id, d: Id)
    requires Inv(s) && Enabled(s, ForceCloseAway(c)) && Ending(s, d)
    ensures Ending(Apply(s, ForceCloseAway(c)), d)
  {
    if s.recs[c].conn.Live() {
      var t := WithConn(s, c, s.recs[c].conn.(state := Connection.Disconnecting));
      assert forall l: nat, f: Functor :: Count(t, l, f) == Count(s, l, f);
      QueueCounts(t, s.recs[c].loop, ForceClose(c));
    }
  }

  lemma AcceptKeeps(s: State, l: nat, d: Id)
    requires Inv(s) && l < |s.queues| && Ending(s, d)
    ensures Ending(Accepted(s, l), d)
  {
    var c := |s.recs|;
    var t := s.(recs := s.recs + [Record(Connection.NEW_CONN, l, true, [], false)]);
    assert forall k: nat, f: Functor :: Count(t, k, f) == Count(s, k, f);
    if l != 0 {
      QueueCounts(t, l, Establish(c));
    }
  }

  lemma {:induction false} EndingForGood(s: State, steps: seq<Step>, c: Id)
    requires Inv(s) && IsRun(s, steps) && Ending(s, c)
    ensures Ending(After(s, steps), c)
    decreases |steps|
  {
    if steps != [] {
      EndingStays(s, steps[0], c);
      StepInv(s, steps[0]);
      EndingForGood(Apply(s, steps[0]), steps[1..], c);
    }
  }

  // ---------- what ends a life ----------

  /** The steps that end the life of connection c in state s. */
  predicate Ends(s: State, step: Step, c: Id) {
    match step
    case ForceCloseHere(d) => d == c
    case ForceCloseAway(d) => d == c
    case Event(d, r, read) => d == c && Closing(r, read) && !Connection.ClosesTwice(r, read)
    case _ => false
  }

  /** Each of these does: it is down at once, or will be when its functor has run. */
  lemma EndsIt(s: State, step: Step, c: Id)
    requires Inv(s) && Enabled(s, step) && Ends(s, step, c) && Known(s, c) && s.recs[c].conn.Live()
    ensures Ending(Apply(s, step), c)
    ensures !step.ForceCloseAway? ==> WasDown in Apply(s, step).recs[c].history
  {
    match step
    case Event(_, r, read) =>
      Connection.ClosesExactly(s.recs[c].conn, r, read);
      CloseMarks(s, c);
      CloseKeeps(s, c, c);
    case ForceCloseHere(_) =>
      var t := WithConn(s, c, s.recs[c].conn.(state := Connection.Disconnecting));
      CloseMarks(t, c);
      CloseKeeps(t, c, c);
    case ForceCloseAway(_) =>
      var t := WithConn(s, c, s.recs[c].conn.(state := Connection.Disconnecting));
      QueueCounts(t, s.recs[c].loop, ForceClose(c));
  }

  /** The record of connection c is as it was, but for its interest and Connected becoming Disconnecting. */
  predicate StillUp(s: State, t: State, c: Id) {
    && Known(s, c) && Known(t, c) && t.recs[c].conn.Live() && t.recs[c].history == s.recs[c].history
    && (t.recs[c].conn.state == s.recs[c].conn.state || t.recs[c].conn.state == Connection.Disconnecting)
  }

  /** Nothing else does: any other step leaves a connection up, unless it runs a forceClose queued before. */
  lemma NothingElseEndsIt(s: State, step: Step, c: Id)
    requires Inv(s) && Enabled(s, step) && !Ends(s, step, c) && Known(s, c) && s.recs[c].conn.Live()
    requires step.RunFunctor? ==> s.queues[step.loop][0] != ForceClose(c)
    ensures StillUp(s, Apply(s, step), c)
  {
    if step.RunFunctor? {
      OthersHead(s, step.loop, c);
    } else if step.Event? && step.c == c {
      Connection.AssertionFailsExactly(s.recs[c].conn, step.r, step.read);
      if !Connection.ClosesTwice(step.r, step.read) {
        Connection.ClosesExactly(s.recs[c].conn, step.r, step.read);
      }
    }
  }

  lemma OthersHead(s: State, l: nat, c: Id)
    requires Inv(s) && Enabled(s, RunFunctor(l)) && s.queues[l][0] != ForceClose(c)
    requires Known(s, c) && s.recs[c].conn.Live()
    ensures StillUp(s, RunHead(s, l), c)
  {
    var f := s.queues[l][0];
    Popped(s, l);
    assert Stage(s, c);
    assert Count(s, l, f) > 0 && Placed(s, f);
  }

  /** shutdown marks an open connection, and ends nothing. */
  lemma ShutdownOnlyMarks(s: State, c: Id)
    requires Known(s, c) && |s.queues| > 0 && s.recs[c].conn.state == Connection.Connected
    ensures var t := Apply(s, Shutdown(c));
            StillUp(s, t, c) && t.recs[c].conn.state == Connection.Disconnecting && t.queues == s.queues
  {
  }

  /** startRead and stopRead, and the output path, set the interest they are about and no other. */
  lemma InterestIsSet(s: State, c: Id, on: bool)
    requires Known(s, c) && |s.queues| > 0
    ensures Registered(s.recs[c]) ==>
              var t := Apply(s, SetReading(c, on)).recs[c];
              && t.conn.reading == on && t.conn.writing == s.recs[c].conn.writing
              && t.conn.state == s.recs[c].conn.state && t.history == s.recs[c].history
    ensures s.recs[c].conn.Live() ==>
              var t := Apply(s, SetWriting(c, on)).recs[c];
              && t.conn.writing == on && t.conn.reading == s.recs[c].conn.reading
              && t.conn.state == s.recs[c].conn.state && t.history == s.recs[c].history
  {
  }

  // ---------- the queues drain ----------

  function Weight(f: Functor): nat {
    match f
    case Establish(_) => 1
    case Destroy(_) => 1
    case Remove(_) => 2
    case ForceClose(_) => 3
  }

  function QueueWeight(q: seq<Functor>): nat {
    if q == [] then 0 else QueueWeight(q[..|q| - 1]) + Weight(q[|q| - 1])
  }

  function Load(queues: seq<seq<Functor>>): nat {
    if queues == [] then 0 else QueueWeight(queues[0]) + Load(queues[1..])
  }

  lemma {:induction false} LoadChanged(queues: seq<seq<Functor>>, l: nat, q: seq<Functor>)
    requires l < |queues|
    ensures Load(queues[l := q]) == Load(queues) - QueueWeight(queues[l]) + QueueWeight(q)
  {
    if l == 0 {
      assert queues[l := q][1..] == queues[1..];
    } else {
      assert queues[l := q][1..] == queues[1..][l - 1 := q];
      LoadChanged(queues[1..], l - 1, q);
    }
  }

  lemma {:induction false} FirstWeight(q: seq<Functor>)
    requires q != []
    ensures QueueWeight(q) == Weight(q[0]) + QueueWeight(q[1..])
  {
    var n := |q| - 1;
    if n > 0 {
      FirstWeight(q[..n]);
      assert q[..n][1..] == q[1..][..n - 1];
    }
  }

  lemma QueuedWeighs(s: State, l: nat, f: Functor)
    requires l < |s.queues|
    ensures Load(Queued(s, l, f).queues) == Load(s.queues) + Weight(f)
  {
    var q := s.queues[l] + [f];
    assert q[..|q| - 1] == s.queues[l];
    LoadChanged(s.queues, l, q);
  }

  /** Running a functor makes the load lighter, though it may queue another. */
  lemma HeadLightens(s: State, l: nat)
    requires Enabled(s, RunFunctor(l))
    ensures Load(RunHead(s, l).queues) < Load(s.queues)
  {
    var f := s.queues[l][0];
    var t := s.(queues := s.queues[l := s.queues[l][1..]]);
    LoadChanged(s.queues, l, s.queues[l][1..]);
    FirstWeight(s.queues[l]);
    assert Load(t.queues) == Load(s.queues) - Weight(f);
    if f.Remove? {
      RemoveWeighs(t, f.c);
    } else if f.ForceClose? && t.recs[f.c].conn.Live() {
      var r := t.recs[f.c];
      var v := Updated(t, f.c, r.(conn := Connection.Closed(r.conn), history := r.history + [WasDown]));
      if r.loop == 0 {
        RemoveWeighs(v, f.c);
      } else {
        QueuedWeighs(v, 0, Remove(f.c));
      }
    }
  }

  lemma RemoveWeighs(s: State, c: Id)
    requires Known(s, c)
    ensures Load(RunRemove(s, c).queues) <= Load(s.queues) + 1
  {
    var r := s.recs[c];
    if r.listed {
      QueuedWeighs(Updated(s, c, r.(listed := false, history := r.history + [WasErased])), r.loop, Destroy(c));
    }
  }

  predicate Drained(s: State) {
    forall l :: 0 <= l < |s.queues| ==> s.queues[l] == []
  }

  predicate OnlyFunctors(steps: seq<Step>) {
    forall i :: 0 <= i < |steps| ==> steps[i].RunFunctor?
  }

  /** The queues can be drained by running what is in them. */
  lemma {:induction false} Drain(s: State) returns (steps: seq<Step>)
    requires Inv(s)
    ensures IsRun(s, steps) && Drained(After(s, steps)) && OnlyFunctors(steps)
    decreases Load(s.queues)
  {
    steps := [];
    if l :| 0 <= l < |s.queues| && s.queues[l] != [] {
      var f := s.queues[l][0];
      assert Count(s, l, f) > 0 && Placed(s, f) && Stage(s, f.c);
      HeadLightens(s, l);
      StepInv(s, RunFunctor(l));
      steps := Drain(Apply(s, RunFunctor(l)));
      assert ([RunFunctor(l)] + steps)[1..] == steps;
      steps := [RunFunctor(l)] + steps;
    }
  }

  /**
   In every run, a connection that is ending has lived its whole life in every continuation
   that drains the queues, and the functors alone can drain them.
   */
  lemma LifeIsLived(s: State, steps: seq<Step>, c: Id)
    requires Initial(s) && IsRun(s, steps) && Ending(After(s, steps), c)
    ensures var t := After(s, steps);
            && (forall more :: IsRun(t, more) && Drained(After(t, more)) ==>
                  c < |After(t, more).recs| && After(t, more).recs[c].history == LIFE && !After(t, more).recs[c].listed)
            && exists more :: IsRun(t, more) && Drained(After(t, more)) && OnlyFunctors(more)
  {
    var t := After(s, steps);
    InitialInv(s);
    EveryRun(s, steps);
    forall more | IsRun(t, more) && Drained(After(t, more))
      ensures c < |After(t, more).recs| && After(t, more).recs[c].history == LIFE && !After(t, more).recs[c].listed
    {
      EveryRun(t, more);
      EndingForGood(t, more, c);
      DrainedLife(After(t, more), c);
    }
    var more := Drain(t);
  }

  lemma DrainedLife(s: State, c: Id)
    requires Inv(s) && Drained(s) && Ending(s, c)
    ensures s.recs[c].history == LIFE && !s.recs[c].listed
  {
    assert Stage(s, c);
    var n := |s.recs[c].history|;
    UpIsLive(s, c);
    assert LIFE[..4] == LIFE && n == 4;
  }

  // ---------- reading ----------

  lemma {:induction false} ReadsWhileUp(s: State, steps: seq<Step>, c: Id)
    requires Inv(s) && IsRun(s, steps) && c < |After(s, steps).recs| && SetReading(c, false) !in steps
    requires c < |s.recs| && s.recs[c].history == [WasUp] ==> s.recs[c].conn.reading
    ensures After(s, steps).recs[c].history == [WasUp] ==> After(s, steps).recs[c].conn.reading
    decreases |steps|
  {
    if steps != [] {
      assert steps[0] in steps;
      StepInv(s, steps[0]);
      ReadingStays(s, steps[0], c);
      ReadsWhileUp(Apply(s, steps[0]), steps[1..], c);
    }
  }

  lemma ReadingStays(s: State, step: Step, c: Id)
    requires Inv(s) && Enabled(s, step) && step != SetReading(c, false)
    requires c < |s.recs| && s.recs[c].history == [WasUp] ==> s.recs[c].conn.reading
    ensures var t := Apply(s, step); c < |t.recs| && t.recs[c].history == [WasUp] ==> t.recs[c].conn.reading
  {
    if c < |s.recs| {
      assert Stage(s, c);
      if step.RunFunctor? {
        HeadReads(s, step.loop, c);
      } else {
        OtherReads(s, step, c);
      }
    }
  }

  lemma HeadReads(s: State, l: nat, c: Id)
    requires Inv(s) && Enabled(s, RunFunctor(l)) && c < |s.recs| && Stage(s, c)
    requires s.recs[c].history == [WasUp] ==> s.recs[c].conn.reading
    ensures var t := RunHead(s, l); c < |t.recs| && (t.recs[c].history == [WasUp] ==> t.recs[c].conn.reading)
  {
    Popped(s, l);
  }

  lemma OtherReads(s: State, step: Step, c: Id)
    requires |s.queues| > 0 && Enabled(s, step) && step != SetReading(c, false) && !step.RunFunctor?
    requires c < |s.recs| && Stage(s, c) && (s.recs[c].history == [WasUp] ==> s.recs[c].conn.reading)
    ensures var t := Apply(s, step); c < |t.recs| && (t.recs[c].history == [WasUp] ==> t.recs[c].conn.reading)
  {
    var h := s.recs[c].history;
    assert h != [] && h != [WasUp] ==> |h| >= 2;
  }
}
