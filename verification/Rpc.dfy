/**
 RpcChannel: requests and responses matched by id, between two ends of one connection.

 Each end is both caller and server. A link is one direction of calls: the caller's id
 counter and table of outstanding calls, the other end's calls in service, and the requests
 and responses under way, each in the order sent. The whole system has one FIFO per
 direction, which carries the requests of one link and the responses of the other.
 */
module Rpc {
  import opened Bytes

  datatype ErrorCode = NoService | NoMethod | InvalidRequest

  /** What a request asks for. */
  datatype Payload = Payload(service: string, name: string, body: seq<byte>)

  datatype Reply = Answer(body: seq<byte>) | Fault(code: ErrorCode)

  datatype Message = Request(id: nat, payload: Payload) | Response(id: nat, reply: Reply)

  /** A finished call: `done` ran with this reply to this request. */
  datatype Call = Call(id: nat, payload: Payload, reply: Reply)

  /** services_, if set: for each service its methods, each with the bodies its request type parses. */
  type Services = Option<map<string, map<string, seq<byte> -> bool>>>

  /** The error an incoming request meets, if any. */
  function Refusal(services: Services, p: Payload): Option<ErrorCode> {
    if services.None? || p.service !in services.value then Some(NoService)
    else if p.name !in services.value[p.service] then Some(NoMethod)
    else if !services.value[p.service][p.name](p.body) then Some(InvalidRequest)
    else None
  }

  // ---------- one link ----------

  /**
   The caller's side: the id counter, ids taken but not yet in the table, the table with the
   calls in it not yet sent, the calls that are done, and a record of what was asked, by id.
   */
  datatype Caller = Caller(
    lastId: nat,
    taken: map<nat, Payload>,
    outstanding: map<nat, Payload>,
    unsent: set<nat>,
    done: seq<Call>,
    asked: seq<Payload>)

  /** The server's side: calls in service, and a record of every answer given. */
  datatype Server = Server(serving: map<nat, Payload>, answered: map<nat, (Payload, Reply)>)

  datatype Link = Link(caller: Caller, server: Server, requests: seq<Message>, responses: seq<Message>)

  function Count(q: seq<Message>, id: nat): nat {
    if q == [] then 0 else Count(q[..|q| - 1], id) + if q[|q| - 1].id == id then 1 else 0
  }

  lemma {:induction false} CountConcat(a: seq<Message>, b: seq<Message>, id: nat)
    ensures Count(a + b, id) == Count(a, id) + Count(b, id)
    decreases |b|
  {
    if b == [] {
      assert a + b == a;
    } else {
      assert (a + b)[..|a + b| - 1] == a + b[..|b| - 1];
      CountConcat(a, b[..|b| - 1], id);
    }
  }

  lemma CountTail(q: seq<Message>, id: nat)
    requires q != []
    ensures Count(q, id) == Count(q[1..], id) + if q[0].id == id then 1 else 0
  {
    assert q == [q[0]] + q[1..] && [q[0]][..0] == [];
    CountConcat([q[0]], q[1..], id);
  }

  lemma CountOne(m: Message, id: nat)
    ensures Count([m], id) == if m.id == id then 1 else 0
  {
    assert [m][..0] == [];
  }

  lemma {:induction false} Absent(q: seq<Message>, id: nat)
    requires Count(q, id) == 0
    ensures forall m :: m in q ==> m.id != id
  {
    if q != [] {
      Absent(q[..|q| - 1], id);
      assert q == q[..|q| - 1] + [q[|q| - 1]];
    }
  }

  /** In how many places the call `id` is under way: unsent, in a request, in service, in a response. */
  function InFlight(l: Link, id: nat): nat {
    (if id in l.caller.unsent then 1 else 0) + Count(l.requests, id)
    + (if id in l.server.serving then 1 else 0) + Count(l.responses, id)
  }

  /** The calls under way are exactly the keys of the table, each in one place. */
  ghost predicate Located(l: Link) {
    forall id {:trigger InFlight(l, id)} :: InFlight(l, id) == if id in l.caller.outstanding then 1 else 0
  }

  /** Each place holds the call as the table has it, and a response is the recorded answer to it. */
  ghost predicate Held(c: Caller, s: Server, requests: seq<Message>, responses: seq<Message>) {
    && (forall m :: m in requests ==> m.Request? && m.id in c.outstanding && c.outstanding[m.id] == m.payload)
    && (forall id :: id in s.serving ==> id in c.outstanding && c.outstanding[id] == s.serving[id])
    && (forall m :: m in responses ==>
          && m.Response? && m.id in c.outstanding && m.id in s.answered
          && s.answered[m.id] == (c.outstanding[m.id], m.reply))
  }

  /** Every id up to the counter is taken, outstanding or done, for the payload it was taken for. */
  ghost predicate Counted(c: Caller) {
    && |c.asked| == c.lastId
    && (forall id :: id in c.taken ==> 0 < id <= c.lastId && id !in c.outstanding && c.taken[id] == c.asked[id - 1])
    && (forall id :: id in c.outstanding ==> 0 < id <= c.lastId && c.outstanding[id] == c.asked[id - 1])
    && (forall i :: 0 <= i < |c.done| ==>
          0 < c.done[i].id <= c.lastId && c.done[i].payload == c.asked[c.done[i].id - 1])
    && (forall id :: 0 < id <= c.lastId ==> id in c.taken || id in c.outstanding || IsDone(c.done, id))
  }

  /** A done call has its own answer and is over for good. */
  ghost predicate Settled(c: Caller, s: Server) {
    && (forall i :: 0 <= i < |c.done| ==> var d := c.done[i];
          && d.id !in c.outstanding && d.id !in c.taken
          && d.id in s.answered && s.answered[d.id] == (d.payload, d.reply))
    && (forall i, j :: 0 <= i < j < |c.done| ==> c.done[i].id != c.done[j].id)
  }

  /** Every answer is on its way or done. */
  ghost predicate Arriving(c: Caller, s: Server, responses: seq<Message>) {
    forall id :: id in s.answered ==> Count(responses, id) > 0 || IsDone(c.done, id)
  }

  predicate IsDone(done: seq<Call>, id: nat) {
    exists i :: 0 <= i < |done| && done[i].id == id
  }

  /** The server answers with an error exactly when the request meets one, and with that one. */
  ghost predicate Fair(s: Server, services: Services) {
    && (forall id :: id in s.serving ==> Refusal(services, s.serving[id]).None?)
    && (forall id :: id in s.answered ==> Suits(services, s.answered[id].0, s.answered[id].1))
  }

  predicate Suits(services: Services, p: Payload, reply: Reply) {
    match Refusal(services, p)
    case Some(code) => reply == Fault(code)
    case None => reply.Answer?
  }

  ghost predicate Matched(l: Link, services: Services) {
    && Located(l)
    && Held(l.caller, l.server, l.requests, l.responses)
    && Counted(l.caller)
    && Settled(l.caller, l.server)
    && Arriving(l.caller, l.server, l.responses)
    && Fair(l.server, services)
  }

  // CallMethod: the counter, the table, the send

  function TakeId(c: Caller, p: Payload): Caller {
    c.(lastId := c.lastId + 1, taken := c.taken[c.lastId + 1 := p], asked := c.asked + [p])
  }

  /** try_emplace: an id already in the table keeps its entry. */
  function Enter(c: Caller, id: nat): Caller
    requires id in c.taken
  {
    c.(taken := c.taken - {id},
       outstanding := if id in c.outstanding then c.outstanding else c.outstanding[id := c.taken[id]],
       unsent := c.unsent + {id})
  }

  // onRpcMessage and doneCallback

  function Begin(s: Server, m: Message): Server
    requires m.Request?
  {
    s.(serving := s.serving[m.id := m.payload])
  }

  function Record(s: Server, id: nat, p: Payload, reply: Reply): Server {
    s.(answered := s.answered[id := (p, reply)])
  }

  function Withdraw(s: Server, id: nat): Server {
    s.(serving := s.serving - {id})
  }

  /** `done` runs if the id is in the table. */
  function Close(c: Caller, m: Message): Caller
    requires m.Response?
  {
    if m.id !in c.outstanding then c
    else c.(outstanding := c.outstanding - {m.id}, done := c.done + [Call(m.id, c.outstanding[m.id], m.reply)])
  }

  // the same on a link

  function Take(l: Link, p: Payload): Link {
    l.(caller := TakeId(l.caller, p))
  }

  function Register(l: Link, id: nat): Link
    requires id in l.caller.taken
  {
    l.(caller := Enter(l.caller, id))
  }

  function Send(l: Link, id: nat): Link
    requires id in l.caller.unsent && id in l.caller.outstanding
  {
    l.(caller := l.caller.(unsent := l.caller.unsent - {id}),
       requests := l.requests + [Request(id, l.caller.outstanding[id])])
  }

  function Receive(l: Link, services: Services): Link
    requires l.requests != [] && l.requests[0].Request?
  {
    var m := l.requests[0];
    var rest := l.(requests := l.requests[1..]);
    match Refusal(services, m.payload)
    case None => rest.(server := Begin(l.server, m))
    case Some(code) => Answered(rest, m.id, m.payload, Fault(code))
  }

  function Answered(l: Link, id: nat, p: Payload, reply: Reply): Link {
    l.(server := Record(l.server, id, p, reply), responses := l.responses + [Response(id, reply)])
  }

  function Finish(l: Link, id: nat, body: seq<byte>): Link
    requires id in l.server.serving
  {
    Answered(l.(server := Withdraw(l.server, id)), id, l.server.serving[id], Answer(body))
  }

  function Return(l: Link): Link
    requires l.responses != [] && l.responses[0].Response?
  {
    l.(responses := l.responses[1..], caller := Close(l.caller, l.responses[0]))
  }

  lemma TakeCounted(c: Caller, p: Payload)
    requires Counted(c)
    ensures Counted(TakeId(c, p))
  {
    var t := TakeId(c, p);
    assert t.asked[..c.lastId] == c.asked;
    assert forall id :: 0 < id <= c.lastId ==> id in c.taken || id in c.outstanding || IsDone(c.done, id);
  }

  lemma EnterCounted(c: Caller, id: nat)
    requires Counted(c) && id in c.taken
    ensures Counted(Enter(c, id))
  {
  }

  lemma TakeMatched(l: Link, p: Payload, services: Services)
    requires Matched(l, services)
    ensures Matched(Take(l, p), services)
  {
    var t := Take(l, p);
    TakeCounted(l.caller, p);
    forall id ensures InFlight(t, id) == if id in t.caller.outstanding then 1 else 0 {
      assert InFlight(t, id) == InFlight(l, id);
    }
  }

  lemma RegisterMatched(l: Link, id: nat, services: Services)
    requires Matched(l, services) && id in l.caller.taken
    ensures id !in l.caller.outstanding
    ensures Matched(Register(l, id), services)
  {
    var t := Register(l, id);
    EnterCounted(l.caller, id);
    assert InFlight(l, id) == 0;
    forall x ensures InFlight(t, x) == if x in t.caller.outstanding then 1 else 0 {
      assert InFlight(l, x) == if x in l.caller.outstanding then 1 else 0;
    }
  }

  lemma SendMatched(l: Link, id: nat, services: Services)
    requires Matched(l, services) && id in l.caller.unsent && id in l.caller.outstanding
    ensures Matched(Send(l, id), services)
  {
    var t := Send(l, id);
    forall x ensures InFlight(t, x) == if x in t.caller.outstanding then 1 else 0 {
      assert InFlight(l, x) == if x in l.caller.outstanding then 1 else 0;
      CountConcat(l.requests, [Request(id, l.caller.outstanding[id])], x);
      CountOne(Request(id, l.caller.outstanding[id]), x);
    }
  }

  /** An outstanding call with no response under way has not been answered yet. */
  lemma NotYetAnswered(l: Link, id: nat)
    requires Settled(l.caller, l.server) && Arriving(l.caller, l.server, l.responses)
    requires id in l.caller.outstanding && Count(l.responses, id) == 0
    ensures id !in l.server.answered
  {
    assert !IsDone(l.caller.done, id);
  }

  lemma OneMoreResponse(responses: seq<Message>, id: nat, reply: Reply, x: nat)
    ensures Count(responses + [Response(id, reply)], x) == Count(responses, x) + if x == id then 1 else 0
  {
    CountConcat(responses, [Response(id, reply)], x);
    CountOne(Response(id, reply), x);
  }

  lemma AnsweredLocated(l: Link, id: nat, reply: Reply)
    requires forall x {:trigger InFlight(l, x)} ::
               InFlight(l, x) == if x in l.caller.outstanding && x != id then 1 else 0
    requires id in l.caller.outstanding
    ensures Located(Answered(l, id, l.caller.outstanding[id], reply))
  {
    var t := Answered(l, id, l.caller.outstanding[id], reply);
    forall x ensures InFlight(t, x) == if x in t.caller.outstanding then 1 else 0 {
      assert InFlight(l, x) == if x in l.caller.outstanding && x != id then 1 else 0;
      OneMoreResponse(l.responses, id, reply, x);
    }
  }

  lemma AnsweredArriving(l: Link, id: nat, reply: Reply)
    requires Arriving(l.caller, l.server, l.responses) && id in l.caller.outstanding
    ensures var t := Answered(l, id, l.caller.outstanding[id], reply); Arriving(t.caller, t.server, t.responses)
  {
    var t := Answered(l, id, l.caller.outstanding[id], reply);
    forall x | x in t.server.answered ensures Count(t.responses, x) > 0 || IsDone(t.caller.done, x) {
      OneMoreResponse(l.responses, id, reply, x);
    }
  }

  lemma AnsweredHeld(l: Link, id: nat, reply: Reply)
    requires Held(l.caller, l.server, l.requests, l.responses) && id in l.caller.outstanding && id !in l.server.answered
    ensures var t := Answered(l, id, l.caller.outstanding[id], reply); Held(t.caller, t.server, t.requests, t.responses)
  {
  }

  lemma AnsweredSettled(l: Link, id: nat, reply: Reply)
    requires Settled(l.caller, l.server) && id in l.caller.outstanding
    ensures var t := Answered(l, id, l.caller.outstanding[id], reply); Settled(t.caller, t.server)
  {
  }

  /** Answering a call that is no longer in any place, but outstanding and unanswered, keeps the match. */
  lemma AnsweredMatched(l: Link, id: nat, reply: Reply, services: Services)
    requires forall x {:trigger InFlight(l, x)} ::
               InFlight(l, x) == if x in l.caller.outstanding && x != id then 1 else 0
    requires Held(l.caller, l.server, l.requests, l.responses) && Settled(l.caller, l.server)
    requires Arriving(l.caller, l.server, l.responses) && Fair(l.server, services)
    requires id in l.caller.outstanding && Suits(services, l.caller.outstanding[id], reply)
    requires Counted(l.caller)
    ensures Matched(Answered(l, id, l.caller.outstanding[id], reply), services)
  {
    assert InFlight(l, id) == 0;
    NotYetAnswered(l, id);
    AnsweredLocated(l, id, reply);
    AnsweredHeld(l, id, reply);
    AnsweredSettled(l, id, reply);
    AnsweredArriving(l, id, reply);
  }

  lemma ReceiveMatched(l: Link, services: Services)
    requires Matched(l, services) && l.requests != [] && l.requests[0].Request?
    ensures Matched(Receive(l, services), services)
  {
    var m, t := l.requests[0], l.(requests := l.requests[1..]);
    assert m in l.requests;
    forall x ensures InFlight(t, x) == if x in l.caller.outstanding && x != m.id then 1 else 0 {
      assert InFlight(l, x) == if x in l.caller.outstanding then 1 else 0;
      CountTail(l.requests, x);
    }
    match Refusal(services, m.payload)
    case Some(code) => AnsweredMatched(t, m.id, Fault(code), services);
    case None =>
      var r := Receive(l, services);
      forall x ensures InFlight(r, x) == if x in r.caller.outstanding then 1 else 0 {
        assert InFlight(t, x) == if x in l.caller.outstanding && x != m.id then 1 else 0;
      }
  }

  lemma FinishMatched(l: Link, id: nat, body: seq<byte>, services: Services)
    requires Matched(l, services) && id in l.server.serving
    ensures Matched(Finish(l, id, body), services)
  {
    var t := l.(server := Withdraw(l.server, id));
    Withdrawn(l, id);
    AnsweredMatched(t, id, Answer(body), services);
  }

  lemma Withdrawn(l: Link, id: nat)
    requires Located(l) && id in l.server.serving && id in l.caller.outstanding
    ensures var t := l.(server := Withdraw(l.server, id));
      forall x {:trigger InFlight(t, x)} :: InFlight(t, x) == if x in t.caller.outstanding && x != id then 1 else 0
  {
    var t := l.(server := Withdraw(l.server, id));
    forall x ensures InFlight(t, x) == if x in t.caller.outstanding && x != id then 1 else 0 {
      assert InFlight(l, x) == if x in l.caller.outstanding then 1 else 0;
    }
  }

  /** The id of the front response is nowhere else, and is in the table. */
  lemma FrontResponse(l: Link)
    requires Located(l) && Held(l.caller, l.server, l.requests, l.responses) && l.responses != []
    ensures l.responses[0] in l.responses
    ensures forall m :: m in l.requests || m in l.responses[1..] ==> m.id != l.responses[0].id
    ensures l.responses[0].id !in l.server.serving
  {
    var m := l.responses[0];
    assert m in l.responses;
    assert InFlight(l, m.id) == 1;
    CountTail(l.responses, m.id);
    Absent(l.requests, m.id);
    Absent(l.responses[1..], m.id);
  }

  lemma ReturnLocated(l: Link)
    requires Located(l) && Held(l.caller, l.server, l.requests, l.responses) && l.responses != []
    requires l.responses[0].Response?
    ensures Located(Return(l))
    ensures Arriving(l.caller, l.server, l.responses) ==> Arriving(Return(l).caller, l.server, Return(l).responses)
  {
    var m, t := l.responses[0], Return(l);
    assert m in l.responses;
    forall x ensures Count(l.responses, x) == Count(t.responses, x) + if m.id == x then 1 else 0 {
      CountTail(l.responses, x);
    }
    forall x ensures InFlight(t, x) == if x in t.caller.outstanding then 1 else 0 {
      assert InFlight(l, x) == if x in l.caller.outstanding then 1 else 0;
    }
    DoneGrows(l.caller.done, t.caller.done[|l.caller.done|]);
  }

  lemma DoneGrows(done: seq<Call>, call: Call)
    ensures forall id :: IsDone(done + [call], id) <==> IsDone(done, id) || id == call.id
  {
    forall id ensures IsDone(done + [call], id) <==> IsDone(done, id) || id == call.id {
      if IsDone(done, id) {
        var i :| 0 <= i < |done| && done[i].id == id;
        assert (done + [call])[i].id == id;
      }
      assert (done + [call])[|done|].id == call.id;
    }
  }

  lemma ReturnMatched(l: Link, services: Services)
    requires Matched(l, services) && l.responses != [] && l.responses[0].Response?
    ensures l.responses[0].id in l.caller.outstanding
    ensures Matched(Return(l), services)
  {
    FrontResponse(l);
    ReturnLocated(l);
    ReturnHeld(l);
    CloseCounted(l.caller, l.responses[0]);
    CloseSettled(l.caller, l.server, l.responses[0]);
  }

  lemma ReturnHeld(l: Link)
    requires Held(l.caller, l.server, l.requests, l.responses) && l.responses != []
    requires l.responses[0] in l.responses && l.responses[0].id !in l.server.serving
    requires forall m :: m in l.requests || m in l.responses[1..] ==> m.id != l.responses[0].id
    ensures Held(Return(l).caller, l.server, l.requests, l.responses[1..])
  {
    forall x | x in l.responses[1..] ensures x in l.responses {
    }
  }

  lemma CloseCounted(c: Caller, m: Message)
    requires Counted(c) && m.Response? && m.id in c.outstanding
    ensures Counted(Close(c, m))
  {
    var call := Call(m.id, c.outstanding[m.id], m.reply);
    DoneGrows(c.done, call);
    assert (c.done + [call])[..|c.done|] == c.done;
  }

  lemma CloseSettled(c: Caller, s: Server, m: Message)
    requires Settled(c, s) && m.Response? && m.id in c.outstanding && m.id !in c.taken
    requires m.id in s.answered && s.answered[m.id] == (c.outstanding[m.id], m.reply)
    ensures Settled(Close(c, m), s)
  {
    var done := Close(c, m).done;
    assert done[..|c.done|] == c.done && done[|c.done|].id == m.id;
    forall i | 0 <= i < |done|
      ensures done[i].id in s.answered && s.answered[done[i].id] == (done[i].payload, done[i].reply)
              && done[i].id !in c.taken
    {
      assert i < |c.done| ==> done[i] == c.done[i];
    }
    forall i, j | 0 <= i < j < |done| ensures done[i].id != done[j].id {
      assert done[i] == c.done[i];
    }
  }

  // ---------- the two ends ----------

  /** One RpcChannel, with the messages on their way to it. */
  datatype End = End(caller: Caller, server: Server, services: Services, inbox: seq<Message>)

  datatype State = State(a: End, b: End)

  function Swap(s: State): State {
    State(s.b, s.a)
  }

  function Requests(q: seq<Message>): (r: seq<Message>)
    ensures forall m :: m in r ==> m.Request?
  {
    if q == [] then [] else Requests(q[..|q| - 1]) + if q[|q| - 1].Request? then [q[|q| - 1]] else []
  }

  function Responses(q: seq<Message>): (r: seq<Message>)
    ensures forall m :: m in r ==> m.Response?
  {
    if q == [] then [] else Responses(q[..|q| - 1]) + if q[|q| - 1].Response? then [q[|q| - 1]] else []
  }

  /** Calls from a to b. */
  function Calls(s: State): Link {
    Link(s.a.caller, s.b.server, Requests(s.b.inbox), Responses(s.a.inbox))
  }

  ghost predicate Inv(s: State) {
    Matched(Calls(s), s.b.services) && Matched(Calls(Swap(s)), s.a.services)
  }

  function Fresh(services: Services): End {
    End(Caller(0, map[], map[], {}, [], []), Server(map[], map[]), services, [])
  }

  datatype Action = DoTake(payload: Payload) | DoRegister(id: nat) | DoSend(id: nat) | Deliver
      | Complete(id: nat, body: seq<byte>)

  /** An action of end a, or of end b. */
  datatype Step = Step(atA: bool, action: Action)

  /** What end `e` may do: services complete only what they were given. */
  predicate Ready(e: End, action: Action) {
    match action
    case DoTake(_) => true
    case DoRegister(id) => id in e.caller.taken
    case DoSend(id) => id in e.caller.unsent && id in e.caller.outstanding
    case Deliver => e.inbox != []
    case Complete(id, _) => id in e.server.serving
  }

  /** End `e` after an action, and what it sends to its peer. */
  function Act(e: End, action: Action): (End, seq<Message>)
    requires Ready(e, action)
  {
    match action
    case DoTake(p) => (e.(caller := TakeId(e.caller, p)), [])
    case DoRegister(id) => (e.(caller := Enter(e.caller, id)), [])
    case DoSend(id) => (e.(caller := e.caller.(unsent := e.caller.unsent - {id})),
                        [Request(id, e.caller.outstanding[id])])
    case Deliver => Handle(e.(inbox := e.inbox[1..]), e.inbox[0])
    case Complete(id, body) =>
      (e.(server := Record(Withdraw(e.server, id), id, e.server.serving[id], Answer(body))),
       [Response(id, Answer(body))])
  }

  /** onRpcMessage. */
  function Handle(e: End, m: Message): (End, seq<Message>) {
    if m.Response? then (e.(caller := Close(e.caller, m)), [])
    else
      match Refusal(e.services, m.payload)
      case None => (e.(server := Begin(e.server, m)), [])
      case Some(code) => (e.(server := Record(e.server, m.id, m.payload, Fault(code))), [Response(m.id, Fault(code))])
  }

  function ActAtA(s: State, action: Action): State
    requires Ready(s.a, action)
  {
    var (a, sent) := Act(s.a, action);
    State(a, s.b.(inbox := s.b.inbox + sent))
  }

  predicate Enabled(s: State, step: Step) {
    Ready(if step.atA then s.a else s.b, step.action)
  }

  function Apply(s: State, step: Step): State
    requires Enabled(s, step)
  {
    if step.atA then ActAtA(s, step.action) else Swap(ActAtA(Swap(s), step.action))
  }

  predicate IsRun(s: State, run: seq<Step>)
    decreases |run|
  {
    run == [] || (Enabled(s, run[0]) && IsRun(Apply(s, run[0]), run[1..]))
  }

  function After(s: State, run: seq<Step>): State
    requires IsRun(s, run)
    decreases |run|
  {
    if run == [] then s else After(Apply(s, run[0]), run[1..])
  }

  lemma PartsOfOne(m: Message)
    ensures Requests([m]) == if m.Request? then [m] else []
    ensures Responses([m]) == if m.Response? then [m] else []
  {
    var q := [m];
    assert q[..|q| - 1] == [] && q[|q| - 1] == m;
    assert Requests(q[..|q| - 1]) == [] && Responses(q[..|q| - 1]) == [];
  }

  lemma {:induction false} PartsConcat(p: seq<Message>, q: seq<Message>)
    ensures Requests(p + q) == Requests(p) + Requests(q)
    ensures Responses(p + q) == Responses(p) + Responses(q)
    decreases |q|
  {
    if q == [] {
      assert p + q == p;
    } else {
      assert (p + q)[..|p + q| - 1] == p + q[..|q| - 1];
      PartsConcat(p, q[..|q| - 1]);
    }
  }

  lemma PartsTail(q: seq<Message>)
    requires q != []
    ensures q[0].Request? ==> Requests(q) == [q[0]] + Requests(q[1..]) && Responses(q) == Responses(q[1..])
    ensures q[0].Response? ==> Responses(q) == [q[0]] + Responses(q[1..]) && Requests(q) == Requests(q[1..])
  {
    assert q == [q[0]] + q[1..];
    PartsConcat([q[0]], q[1..]);
    PartsOfOne(q[0]);
  }

  /** The calls of end a after an action of end a. */
  function OutAfter(l: Link, inbox: seq<Message>, action: Action): Link
    requires action.DoRegister? ==> action.id in l.caller.taken
    requires action.DoSend? ==> action.id in l.caller.unsent && action.id in l.caller.outstanding
    requires action.Deliver? ==> inbox != [] && (inbox[0].Response? ==> l.responses != [] && l.responses[0].Response?)
  {
    match action
    case DoTake(p) => Take(l, p)
    case DoRegister(id) => Register(l, id)
    case DoSend(id) => Send(l, id)
    case Deliver => if inbox[0].Response? then Return(l) else l
    case Complete(_, _) => l
  }

  /** The calls to end a after an action of end a. */
  function BackAfter(l: Link, services: Services, inbox: seq<Message>, action: Action): Link
    requires action.Complete? ==> action.id in l.server.serving
    requires action.Deliver? ==> inbox != [] && (inbox[0].Request? ==> l.requests != [] && l.requests[0].Request?)
  {
    match action
    case Complete(id, body) => Finish(l, id, body)
    case Deliver => if inbox[0].Request? then Receive(l, services) else l
    case _ => l
  }

  /** Every action is one step of one link, and leaves the other as it is. */
  lemma OneLinkMoves(s: State, action: Action)
    requires Ready(s.a, action)
    ensures action.Deliver? ==>
      if s.a.inbox[0].Request? then Calls(Swap(s)).requests != [] && Calls(Swap(s)).requests[0].Request?
      else Calls(s).responses != [] && Calls(s).responses[0].Response?
    ensures Calls(ActAtA(s, action)) == OutAfter(Calls(s), s.a.inbox, action)
    ensures Calls(Swap(ActAtA(s, action))) == BackAfter(Calls(Swap(s)), s.a.services, s.a.inbox, action)
  {
    if action.Deliver? {
      DeliveryMoves(s);
    } else {
      var sent := Act(s.a, action).1;
      Posted(s.b.inbox, sent);
    }
  }

  lemma Posted(q: seq<Message>, sent: seq<Message>)
    requires |sent| <= 1
    ensures Requests(q + sent) == if sent != [] && sent[0].Request? then Requests(q) + sent else Requests(q)
    ensures Responses(q + sent) == if sent != [] && sent[0].Response? then Responses(q) + sent else Responses(q)
  {
    PartsConcat(q, sent);
    if sent != [] {
      PartsOfOne(sent[0]);
      assert sent == [sent[0]];
    }
  }

  lemma DeliveryMoves(s: State)
    requires s.a.inbox != []
    ensures
      if s.a.inbox[0].Request? then
        && Calls(Swap(s)).requests != [] && Calls(Swap(s)).requests[0].Request?
        && Calls(ActAtA(s, Deliver)) == Calls(s)
        && Calls(Swap(ActAtA(s, Deliver))) == Receive(Calls(Swap(s)), s.a.services)
      else
        && Calls(s).responses != [] && Calls(s).responses[0].Response?
        && Calls(ActAtA(s, Deliver)) == Return(Calls(s))
        && Calls(Swap(ActAtA(s, Deliver))) == Calls(Swap(s))
  {
    if s.a.inbox[0].Request? {
      RequestMoves(s);
    } else {
      ResponseMoves(s);
    }
  }

  lemma RequestMoves(s: State)
    requires s.a.inbox != [] && s.a.inbox[0].Request?
    ensures Calls(Swap(s)).requests != [] && Calls(Swap(s)).requests[0].Request?
    ensures Calls(ActAtA(s, Deliver)) == Calls(s)
    ensures Calls(Swap(ActAtA(s, Deliver))) == Receive(Calls(Swap(s)), s.a.services)
  {
    PartsTail(s.a.inbox);
    assert Requests(s.a.inbox)[1..] == Requests(s.a.inbox[1..]);
    Posted(s.b.inbox, Act(s.a, Deliver).1);
  }

  lemma ResponseMoves(s: State)
    requires s.a.inbox != [] && s.a.inbox[0].Response?
    ensures Calls(s).responses != [] && Calls(s).responses[0].Response?
    ensures Calls(ActAtA(s, Deliver)) == Return(Calls(s))
    ensures Calls(Swap(ActAtA(s, Deliver))) == Calls(Swap(s))
  {
    PartsTail(s.a.inbox);
    assert Responses(s.a.inbox)[1..] == Responses(s.a.inbox[1..]);
    Posted(s.b.inbox, []);
  }

  lemma ActInv(s: State, action: Action)
    requires Inv(s) && Ready(s.a, action)
    ensures Inv(ActAtA(s, action))
  {
    OneLinkMoves(s, action);
    OutMatched(Calls(s), s.b.services, s.a.inbox, action);
    BackMatched(Calls(Swap(s)), s.a.services, s.a.inbox, action);
  }

  lemma OutMatched(l: Link, services: Services, inbox: seq<Message>, action: Action)
    requires Matched(l, services)
    requires action.DoRegister? ==> action.id in l.caller.taken
    requires action.DoSend? ==> action.id in l.caller.unsent && action.id in l.caller.outstanding
    requires action.Deliver? ==> inbox != [] && (inbox[0].Response? ==> l.responses != [] && l.responses[0].Response?)
    ensures Matched(OutAfter(l, inbox, action), services)
  {
    match action
    case DoTake(p) => TakeMatched(l, p, services);
    case DoRegister(id) => RegisterMatched(l, id, services);
    case DoSend(id) => SendMatched(l, id, services);
    case Deliver =>
      if inbox[0].Response? {
        ReturnMatched(l, services);
      }
    case Complete(_, _) =>
  }

  lemma BackMatched(l: Link, services: Services, inbox: seq<Message>, action: Action)
    requires Matched(l, services)
    requires action.Complete? ==> action.id in l.server.serving
    requires action.Deliver? ==> inbox != [] && (inbox[0].Request? ==> l.requests != [] && l.requests[0].Request?)
    ensures Matched(BackAfter(l, services, inbox, action), services)
  {
    match action
    case Complete(id, body) => FinishMatched(l, id, body, services);
    case Deliver =>
      if inbox[0].Request? {
        ReceiveMatched(l, services);
      }
    case _ =>
  }

  lemma StepInv(s: State, step: Step)
    requires Inv(s) && Enabled(s, step)
    ensures Inv(Apply(s, step))
  {
    assert Swap(Swap(s)) == s;
    if step.atA {
      ActInv(s, step.action);
    } else {
      ActInv(Swap(s), step.action);
    }
  }

  lemma {:induction false} EveryRun(s: State, run: seq<Step>)
    requires Inv(s) && IsRun(s, run)
    ensures Inv(After(s, run))
    decreases |run|
  {
    if run != [] {
      StepInv(s, run[0]);
      EveryRun(Apply(s, run[0]), run[1..]);
    }
  }

  // ---------- what a caller sees ----------

  predicate Drained(s: State) {
    && s.a.caller.taken == map[] && s.a.caller.unsent == {} && s.b.server.serving == map[]
    && s.a.inbox == [] && s.b.inbox == []
  }

  /** The calls of end a: matched, answered for what was asked, and each at most once. */
  ghost predicate ExactlyOnce(s: State) {
    var c, serving := s.a.caller, s.b.server.serving;
    // a call is under way in exactly one place, or is not in the table
    && (forall id {:trigger id in c.outstanding} ::
          (if id in c.unsent then 1 else 0) + Count(Requests(s.b.inbox), id)
          + (if id in serving then 1 else 0) + Count(Responses(s.a.inbox), id) == if id in c.outstanding then 1 else 0)
    // every response finds its entry, and every insertion is new
    && (forall m :: m in Responses(s.a.inbox) ==> m.id in c.outstanding)
    && (forall id :: id in c.taken ==> id !in c.outstanding)
    // `done` runs at most once for an id, with the answer given to that request, an error or not
    && (forall i, j :: 0 <= i < j < |c.done| ==> c.done[i].id != c.done[j].id)
    && (forall i :: 0 <= i < |c.done| ==> var d := c.done[i];
          && 0 < d.id <= |c.asked| && d.payload == c.asked[d.id - 1]
          && d.id in s.b.server.answered && s.b.server.answered[d.id] == (d.payload, d.reply)
          && Suits(s.b.services, d.payload, d.reply))
    // and when nothing is under way, every call is done
    && (Drained(s) ==> c.outstanding == map[] && forall id :: 0 < id <= |c.asked| ==> IsDone(c.done, id))
  }

  lemma Seen(s: State)
    requires Matched(Calls(s), s.b.services)
    ensures ExactlyOnce(s)
  {
    var l := Calls(s);
    forall id ensures InFlight(l, id) == if id in l.caller.outstanding then 1 else 0 {
    }
    if Drained(s) {
      forall id ensures id !in l.caller.outstanding {
        assert InFlight(l, id) == 0;
      }
    }
  }

  /** From two fresh ends, whatever the interleaving, both ends' calls are matched exactly once. */
  lemma CallsMatched(forA: Services, forB: Services, run: seq<Step>)
    requires IsRun(State(Fresh(forA), Fresh(forB)), run)
    ensures var s := After(State(Fresh(forA), Fresh(forB)), run); ExactlyOnce(s) && ExactlyOnce(Swap(s))
  {
    var start := State(Fresh(forA), Fresh(forB));
    EveryRun(start, run);
    Seen(After(start, run));
    Seen(Swap(After(start, run)));
  }

  // ---------- what an answer is ----------

  /** Which error a request meets, in the order of the lookups. */
  lemma RefusalExactly(services: Services, p: Payload)
    ensures Refusal(services, p) == Some(NoService) <==> services == None || p.service !in services.value
    ensures Refusal(services, p) == Some(NoMethod) <==>
            services.Some? && p.service in services.value && p.name !in services.value[p.service]
    ensures Refusal(services, p) == Some(InvalidRequest) <==>
            && services.Some? && p.service in services.value && p.name in services.value[p.service]
            && !services.value[p.service][p.name](p.body)
  {
  }

  lemma CompleteSends(e: End, id: nat, body: seq<byte>)
    requires Ready(e, Complete(id, body))
    ensures Act(e, Complete(id, body)).1 == [Response(id, Answer(body))]
    ensures id !in Act(e, Complete(id, body)).0.server.serving
  {
  }

  /** Every answer end b has on record, but for those it had before, was completed with that body in the run. */
  ghost predicate Given(s: State, run: seq<Step>, answered: map<nat, (Payload, Reply)>) {
    forall id :: id in answered && answered[id].1.Answer? ==>
      || (id in s.b.server.answered && s.b.server.answered[id] == answered[id])
      || Step(false, Complete(id, answered[id].1.body)) in run
  }

  lemma {:induction false} AnswersAreGiven(s: State, run: seq<Step>)
    requires IsRun(s, run)
    ensures Given(s, run, After(s, run).b.server.answered)
    decreases |run|
  {
    if run != [] {
      var t, answered := Apply(s, run[0]), After(s, run).b.server.answered;
      AnswersAreGiven(t, run[1..]);
      forall id | id in answered && answered[id].1.Answer?
        ensures (id in s.b.server.answered && s.b.server.answered[id] == answered[id])
                || Step(false, Complete(id, answered[id].1.body)) in run
      {
        if Step(false, Complete(id, answered[id].1.body)) in run[1..] {
          assert Step(false, Complete(id, answered[id].1.body)) in run;
        } else {
          NewAnswer(s, run[0], id);
        }
      }
    }
  }

  lemma NewAnswer(s: State, step: Step, id: nat)
    requires Enabled(s, step) && id in Apply(s, step).b.server.answered
    requires Apply(s, step).b.server.answered[id].1.Answer?
    ensures var given := Apply(s, step).b.server.answered[id];
            (id in s.b.server.answered && s.b.server.answered[id] == given)
            || step == Step(false, Complete(id, given.1.body))
  {
  }

  function SwapRun(run: seq<Step>): (r: seq<Step>)
    ensures |r| == |run| && forall i :: 0 <= i < |r| ==> r[i] == Step(!run[i].atA, run[i].action)
  {
    seq(|run|, i requires 0 <= i < |run| => Step(!run[i].atA, run[i].action))
  }

  /** The ends can be exchanged. */
  lemma {:induction false} SwappedRun(s: State, run: seq<Step>)
    requires IsRun(s, run)
    ensures IsRun(Swap(s), SwapRun(run)) && After(Swap(s), SwapRun(run)) == Swap(After(s, run))
    decreases |run|
  {
    if run != [] {
      assert Swap(Swap(s)) == s;
      var step := Step(!run[0].atA, run[0].action);
      assert SwapRun(run)[0] == step && SwapRun(run)[1..] == SwapRun(run[1..]);
      assert Apply(Swap(s), step) == Swap(Apply(s, run[0]));
      SwappedRun(Apply(s, run[0]), run[1..]);
    }
  }

  /** Every call of end a that finished with an answer finished with a body the service at b gave for its id. */
  ghost predicate AnsweredByService(s: State, run: seq<Step>) {
    forall i :: 0 <= i < |s.a.caller.done| && s.a.caller.done[i].reply.Answer? ==>
      Step(false, Complete(s.a.caller.done[i].id, s.a.caller.done[i].reply.body)) in run
  }

  lemma AnsweredAtA(forA: Services, forB: Services, run: seq<Step>)
    requires IsRun(State(Fresh(forA), Fresh(forB)), run)
    ensures AnsweredByService(After(State(Fresh(forA), Fresh(forB)), run), run)
  {
    var start := State(Fresh(forA), Fresh(forB));
    CallsMatched(forA, forB, run);
    AnswersAreGiven(start, run);
  }

  /** In every run, at both ends: the reply a caller sees is the very body the other end's service completed it with. */
  lemma RepliesAreTheServices(forA: Services, forB: Services, run: seq<Step>)
    requires IsRun(State(Fresh(forA), Fresh(forB)), run)
    ensures var s := After(State(Fresh(forA), Fresh(forB)), run);
            && AnsweredByService(s, run)
            && forall i :: 0 <= i < |s.b.caller.done| && s.b.caller.done[i].reply.Answer? ==>
                 Step(true, Complete(s.b.caller.done[i].id, s.b.caller.done[i].reply.body)) in run
  {
    var start := State(Fresh(forA), Fresh(forB));
    var s := After(start, run);
    AnsweredAtA(forA, forB, run);
    SwappedRun(start, run);
    AnsweredAtA(forB, forA, SwapRun(run));
    forall i | 0 <= i < |s.b.caller.done| && s.b.caller.done[i].reply.Answer?
      ensures Step(true, Complete(s.b.caller.done[i].id, s.b.caller.done[i].reply.body)) in run
    {
      var step := Step(false, Complete(s.b.caller.done[i].id, s.b.caller.done[i].reply.body));
      assert step in SwapRun(run);
      var k :| 0 <= k < |run| && SwapRun(run)[k] == step;
      assert run[k] == Step(true, step.action);
    }
  }

  /** A call once done stays done with the same reply. */
  lemma {:induction false} DoneStays(s: State, run: seq<Step>)
    requires IsRun(s, run)
    ensures s.a.caller.done <= After(s, run).a.caller.done
    ensures s.b.caller.done <= After(s, run).b.caller.done
    decreases |run|
  {
    if run != [] {
      DoneStays(Apply(s, run[0]), run[1..]);
    }
  }

  // ---------- the channel object ----------

  /** One end run by one thread. `output` is what went to the codec, `done` the callbacks run. */
  class RpcChannel {
    const services: Services
    var lastId: nat
    var outstandings: map<nat, Payload>
    var output: seq<Message>
    var serving: map<nat, Payload>
    var done: seq<Call>
    ghost var asked: seq<Payload>
    ghost var answered: map<nat, (Payload, Reply)>

    ghost function View(): End
      reads this
    {
      End(Caller(lastId, map[], outstandings, {}, done, asked), Server(serving, answered), services, [])
    }

    ghost predicate Valid()
      reads this
    {
      forall id :: id in outstandings ==> id <= lastId
    }

    constructor (services: Services)
      ensures Valid() && View() == Fresh(services) && output == []
    {
      this.services := services;
      lastId, outstandings, output, serving, done, asked, answered := 0, map[], [], map[], [], [], map[];
    }

    /** The three steps of a call, in a row: the id is new to the table, and the request goes out under it. */
    method CallMethod(p: Payload) returns (id: nat)
      requires Valid()
      modifies this
      ensures Valid() && id !in old(outstandings)
      ensures var taken := Act(old(View()), DoTake(p)).0;
        && id in taken.caller.taken
        && var entered := Act(taken, DoRegister(id)).0;
           (View(), output) == (Act(entered, DoSend(id)).0, old(output) + Act(entered, DoSend(id)).1)
    {
      id := lastId + 1;
      lastId := id;
      asked := asked + [p];
      if id !in outstandings {
        outstandings := outstandings[id := p];
      }
      output := output + [Request(id, p)];
    }

    method OnRpcMessage(m: Message)
      requires Valid()
      modifies this
      ensures Valid()
      ensures (View(), output) == (Handle(old(View()), m).0, old(output) + Handle(old(View()), m).1)
    {
      if m.Response? {
        if m.id in outstandings {
          var out := outstandings[m.id];
          outstandings := outstandings - {m.id};
          done := done + [Call(m.id, out, m.reply)];
        }
        return;
      }
      assert output + [] == output;
      var error := None;
      if services.Some? {
        if m.payload.service in services.value {
          var methods := services.value[m.payload.service];
          if m.payload.name in methods {
            if methods[m.payload.name](m.payload.body) {
              serving := serving[m.id := m.payload];
            } else {
              error := Some(InvalidRequest);
            }
          } else {
            error := Some(NoMethod);
          }
        } else {
          error := Some(NoService);
        }
      } else {
        error := Some(NoService);
      }
      if error.Some? {
        answered := answered[m.id := (m.payload, Fault(error.value))];
        output := output + [Response(m.id, Fault(error.value))];
      }
    }

    method DoneCallback(id: nat, body: seq<byte>)
      requires Valid() && id in serving
      modifies this
      ensures Valid()
      ensures (View(), output)
           == (Act(old(View()), Complete(id, body)).0, old(output) + Act(old(View()), Complete(id, body)).1)
    {
      answered := answered[id := (serving[id], Answer(body))];
      serving := serving - {id};
      output := output + [Response(id, Answer(body))];
    }
  }
}
