/**
 That RPC calls get done: without new calls the two ends never go on for ever by themselves, and
 where they come to rest every call has its reply.
 */
module RpcProgress {
  import opened Rpc

  /** Any step but a new call. */
  predicate Own(step: Step) {
    !step.action.DoTake?
  }

  predicate Resting(s: State) {
    && s.a.caller.taken == map[] && s.a.caller.unsent == {} && s.a.server.serving == map[] && s.a.inbox == []
    && s.b.caller.taken == map[] && s.b.caller.unsent == {} && s.b.server.serving == map[] && s.b.inbox == []
  }

  /** How many steps a message still takes, its answer included. */
  function MessageRank(m: Message): nat {
    if m.Request? then 3 else 1
  }

  function InboxRank(q: seq<Message>): nat {
    if q == [] then 0 else MessageRank(q[0]) + InboxRank(q[1..])
  }

  lemma {:induction false} InboxGrows(q: seq<Message>, m: Message)
    ensures InboxRank(q + [m]) == InboxRank(q) + MessageRank(m)
  {
    if q == [] {
      assert q + [m] == [m] && [m][1..] == [];
    } else {
      assert (q + [m])[1..] == q[1..] + [m];
      InboxGrows(q[1..], m);
    }
  }

  function EndRank(e: End): nat {
    5 * |e.caller.taken| + 4 * |e.caller.unsent| + 2 * |e.server.serving| + InboxRank(e.inbox)
  }

  function Rank(s: State): nat {
    EndRank(s.a) + EndRank(s.b)
  }

  lemma Fewer<X>(m: map<nat, X>, id: nat)
    requires id in m
    ensures |m - {id}| == |m| - 1
  {
    assert m.Keys == (m - {id}).Keys + {id};
    assert |m.Keys| == |m| && |(m - {id}).Keys| == |m - {id}|;
  }

  lemma AtMostOneMore<X>(m: map<nat, X>, id: nat, x: X)
    ensures |m[id := x]| <= |m| + 1
  {
    assert m[id := x].Keys == m.Keys + {id};
    assert |m.Keys| == |m| && |m[id := x].Keys| == |m[id := x]|;
  }

  lemma OneRank(m: Message)
    ensures InboxRank([m]) == MessageRank(m)
  {
    assert [m][1..] == [] && InboxRank([m]) == MessageRank([m][0]) + InboxRank([m][1..]);
  }

  /** What end e is left with and what it sends weigh less than what it had. */
  lemma ActTires(e: End, action: Action)
    requires Ready(e, action) && !action.DoTake?
    ensures EndRank(Act(e, action).0) + InboxRank(Act(e, action).1) < EndRank(e)
    ensures |Act(e, action).1| <= 1
  {
    match action
    case DoRegister(id) => Fewer(e.caller.taken, id);
    case DoSend(id) =>
      assert |e.caller.unsent - {id}| == |e.caller.unsent| - 1;
      OneRank(Request(id, e.caller.outstanding[id]));
    case Deliver => DeliverTires(e);
    case Complete(id, body) =>
      Fewer(e.server.serving, id);
      OneRank(Response(id, Answer(body)));
  }

  lemma DeliverTires(e: End)
    requires e.inbox != []
    ensures EndRank(Act(e, Deliver).0) + InboxRank(Act(e, Deliver).1) < EndRank(e)
    ensures |Act(e, Deliver).1| <= 1
  {
    var m := e.inbox[0];
    if m.Request? {
      AtMostOneMore(e.server.serving, m.id, m.payload);
      var sent := Act(e, Deliver).1;
      if sent != [] {
        OneRank(sent[0]);
      }
    }
  }

  lemma StepTires(s: State, step: Step)
    requires Enabled(s, step) && Own(step)
    ensures Rank(Apply(s, step)) < Rank(s)
  {
    var e, other := if step.atA then s.a else s.b, if step.atA then s.b else s.a;
    ActTires(e, step.action);
    var sent := Act(e, step.action).1;
    if sent == [] {
      assert other.inbox + sent == other.inbox;
    } else {
      assert sent == [sent[0]] && sent[1..] == [];
      InboxGrows(other.inbox, sent[0]);
    }
  }

  ghost predicate OwnRun(s: State, run: seq<Step>)
    decreases |run|
  {
    run == [] || (Enabled(s, run[0]) && Own(run[0]) && OwnRun(Apply(s, run[0]), run[1..]))
  }

  lemma {:induction false} ComesToRest(s: State, run: seq<Step>)
    requires OwnRun(s, run)
    ensures IsRun(s, run) && |run| <= Rank(s)
    decreases |run|
  {
    if run != [] {
      StepTires(s, run[0]);
      ComesToRest(Apply(s, run[0]), run[1..]);
    }
  }

  /** What is not yet sent is in the table, so it can be sent. */
  lemma UnsentCanGo(s: State, id: nat)
    requires Matched(Calls(s), s.b.services) && id in s.a.caller.unsent
    ensures Ready(s.a, DoSend(id))
  {
    assert InFlight(Calls(s), id) > 0;
  }

  lemma SomeAction(e: End) returns (action: Action)
    requires e.caller.taken != map[] || e.caller.unsent != {} || e.server.serving != map[] || e.inbox != []
    requires forall id :: id in e.caller.unsent ==> Ready(e, DoSend(id))
    ensures Ready(e, action) && !action.DoTake?
  {
    if e.inbox != [] {
      action := Deliver;
    } else if e.caller.unsent != {} {
      var id :| id in e.caller.unsent;
      action := DoSend(id);
    } else if e.caller.taken != map[] {
      var id :| id in e.caller.taken;
      action := DoRegister(id);
    } else {
      var id :| id in e.server.serving;
      action := Complete(id, []);
    }
  }

  lemma SomeStep(s: State) returns (step: Step)
    requires Inv(s) && !Resting(s)
    ensures Enabled(s, step) && Own(step)
  {
    forall id | id in s.a.caller.unsent ensures Ready(s.a, DoSend(id)) {
      UnsentCanGo(s, id);
    }
    forall id | id in s.b.caller.unsent ensures Ready(s.b, DoSend(id)) {
      UnsentCanGo(Swap(s), id);
    }
    if s.a.caller.taken != map[] || s.a.caller.unsent != {} || s.a.server.serving != map[] || s.a.inbox != [] {
      var action := SomeAction(s.a);
      step := Step(true, action);
    } else {
      var action := SomeAction(s.b);
      step := Step(false, action);
    }
  }

  lemma {:induction false} RunToRest(s: State) returns (run: seq<Step>)
    requires Inv(s)
    ensures OwnRun(s, run) && IsRun(s, run) && Inv(After(s, run)) && Resting(After(s, run))
    decreases Rank(s)
  {
    run := [];
    if !Resting(s) {
      var step := SomeStep(s);
      StepTires(s, step);
      StepInv(s, step);
      run := RunToRest(Apply(s, step));
      assert ([step] + run)[1..] == run;
      run := [step] + run;
    }
  }

  /** At rest nothing is outstanding, and every call asked has been done. */
  lemma RestMeansDone(s: State)
    requires Inv(s) && Resting(s)
    ensures s.a.caller.outstanding == map[] && s.b.caller.outstanding == map[]
    ensures forall id :: 0 < id <= |s.a.caller.asked| ==> IsDone(s.a.caller.done, id)
    ensures forall id :: 0 < id <= |s.b.caller.asked| ==> IsDone(s.b.caller.done, id)
  {
    Seen(s);
    Seen(Swap(s));
  }

  /** Every schedule ends, some schedule comes to rest, and rest means that all is done. */
  ghost predicate WillBeDone(s: State) {
    && (forall more :: OwnRun(s, more) ==> |more| <= Rank(s))
    && (exists more :: OwnRun(s, more) && IsRun(s, more) && AllDone(After(s, more)))
    && (Resting(s) ==> AllDone(s))
  }

  predicate AllDone(s: State) {
    && (forall id :: 0 < id <= |s.a.caller.asked| ==> IsDone(s.a.caller.done, id))
    && (forall id :: 0 < id <= |s.b.caller.asked| ==> IsDone(s.b.caller.done, id))
  }

  lemma CanBeDone(s: State)
    requires Inv(s)
    ensures exists more :: OwnRun(s, more) && IsRun(s, more) && AllDone(After(s, more))
  {
    var more := RunToRest(s);
    RestMeansDone(After(s, more));
  }

  lemma WillDo(s: State)
    requires Inv(s)
    ensures WillBeDone(s)
  {
    forall more | OwnRun(s, more) ensures |more| <= Rank(s) {
      ComesToRest(s, more);
    }
    CanBeDone(s);
    if Resting(s) {
      RestMeansDone(s);
    }
  }

  lemma FreshInv(forA: Services, forB: Services)
    ensures Inv(State(Fresh(forA), Fresh(forB)))
  {
  }

  /**
   From every reachable state, every schedule of deliveries, sends and completions without new
   calls ends, and one that cannot go on has every call of both ends done.
   */
  lemma EveryCallIsDone(forA: Services, forB: Services, run: seq<Step>)
    requires IsRun(State(Fresh(forA), Fresh(forB)), run)
    ensures WillBeDone(After(State(Fresh(forA), Fresh(forB)), run))
  {
    FreshInv(forA, forB);
    EveryRun(State(Fresh(forA), Fresh(forB)), run);
    WillDo(After(State(Fresh(forA), Fresh(forB)), run));
  }

  /** A new call is asked, once, and under the next id. */
  lemma TakeAsks(e: End, p: Payload)
    ensures var c := Act(e, DoTake(p)).0.caller;
            c.asked == e.caller.asked + [p] && c.lastId == e.caller.lastId + 1 && c.lastId in c.taken
            && c.taken[c.lastId] == p
  {
  }
}
