/**
 The removal protocol between TcpServer's base loop and the I/O loops, over any number of
 connections and loops.

 Loop 0 is the base loop, which owns the connection map; each connection belongs to one
 loop. runInLoop runs at once in the right thread and queues otherwise; every queue is
 FIFO. A step is an accept, one queued functor, one channel event, or one API call.
 */
module Lifecycle {
  import opened Connection

  type Id = nat

  /** Functors that hold a shared_ptr to their connection. */
  datatype Functor =
    | Establish(c: Id)
    | Remove(c: Id)
    | Destroy(c: Id)
    | ForceClose(c: Id)

  /** What happened to a connection, in order. */
  datatype Mark = WasUp | WasDown | WasErased | WasDestroyed

  /**
   A connection, its loop, whether connections_ holds it, its history, and whether its read
   interest was last switched on by a startRead after it had closed.
   */
  datatype Record = Record(conn: Conn, loop: nat, listed: bool, history: seq<Mark>, late: bool)

  /** Connections are numbered in the order they are accepted, as nextConnId_ names them. */
  datatype State = State(recs: seq<Record>, queues: seq<seq<Functor>>)

  datatype Step =
    | Accept(loop: nat)
    | RunFunctor(loop: nat)
    | Event(c: Id, r: Revents, read: Read)
    | ForceCloseHere(c: Id)      // forceClose in the connection's loop thread
    | ForceCloseAway(c: Id)      // forceClose in another thread
    | Shutdown(c: Id)            // shutdown, or the first half of forceCloseWithDelay
    | SetWriting(c: Id, on: bool)
    | SetReading(c: Id, on: bool)

  predicate Initial(s: State) {
    s.recs == [] && |s.queues| > 0 && forall l :: 0 <= l < |s.queues| ==> s.queues[l] == []
  }

  predicate Known(s: State, c: Id) {
    c < |s.recs| && s.recs[c].loop < |s.queues|
  }

  /**
   An event may reach any channel between its registration and its removal, whatever its
   interest: the list of active channels is fixed when poll returns, and a callback of one of
   them may close another. startRead and stopRead come in the same span.
   */
  predicate Enabled(s: State, step: Step) {
    && |s.queues| > 0
    && match step
       case Accept(l) => l < |s.queues|
       case RunFunctor(l) => l < |s.queues| && s.queues[l] != [] && Known(s, s.queues[l][0].c)
       case Event(c, _, _) => Known(s, c) && Registered(s.recs[c])
       case ForceCloseHere(c) => Known(s, c)
       case ForceCloseAway(c) => Known(s, c)
       case Shutdown(c) => Known(s, c)
       case SetWriting(c, _) => Known(s, c) && s.recs[c].conn.Live()
       case SetReading(c, _) => Known(s, c) && Registered(s.recs[c])
  }

  /** Up and not yet destroyed. */
  predicate Registered(r: Record) {
    1 <= |r.history| <= 3
  }

  function Queued(s: State, l: nat, f: Functor): State
    requires l < |s.queues|
  {
    s.(queues := s.queues[l := s.queues[l] + [f]])
  }

  function Updated(s: State, c: Id, r: Record): State
    requires c < |s.recs|
  {
    s.(recs := s.recs[c := r])
  }

  /** newConnection. */
  function Accepted(s: State, l: nat): State
    requires l < |s.queues|
  {
    var c := |s.recs|;
    var t := s.(recs := s.recs + [Record(NEW_CONN, l, true, [], false)]);
    if l == 0 then RunEstablish(t, c) else Queued(t, l, Establish(c))
  }

  /** connectEstablished; where its assertion fails the model makes no move. */
  function RunEstablish(s: State, c: Id): State
    requires Known(s, c)
  {
    var r := s.recs[c];
    if r.conn.state == Connecting then Updated(s, c, r.(conn := Established(r.conn), history := r.history + [WasUp]))
    else s
  }

  /** handleClose, whose close callback is TcpServer::removeConnection. */
  function RunClose(s: State, c: Id): State
    requires Known(s, c) && s.recs[c].conn.Live()
  {
    var r := s.recs[c];
    var t := Updated(s, c, r.(conn := Closed(r.conn), history := r.history + [WasDown]));
    if r.loop == 0 then RunRemove(t, c) else Queued(t, 0, Remove(c))
  }

  /** removeConnectionInLoop; where its assertion fails the model makes no move. */
  function RunRemove(s: State, c: Id): State
    requires Known(s, c)
  {
    var r := s.recs[c];
    if r.listed then Queued(Updated(s, c, r.(listed := false, history := r.history + [WasErased])), r.loop, Destroy(c))
    else s
  }

  function RunDestroy(s: State, c: Id): State
    requires Known(s, c)
  {
    var r := s.recs[c];
    Updated(s, c, r.(conn := Destroyed(r.conn), history := r.history + [WasDestroyed]))
  }

  function WithConn(s: State, c: Id, conn: Conn): State
    requires Known(s, c)
  {
    Updated(s, c, s.recs[c].(conn := conn))
  }

  function RunHead(s: State, l: nat): State
    requires l < |s.queues| && s.queues[l] != [] && Known(s, s.queues[l][0].c)
  {
    var t := s.(queues := s.queues[l := s.queues[l][1..]]);
    match s.queues[l][0]
    case Establish(c) => RunEstablish(t, c)
    case Remove(c) => RunRemove(t, c)
    case Destroy(c) => RunDestroy(t, c)
    case ForceClose(c) => if t.recs[c].conn.Live() then RunClose(t, c) else t
  }

  function Apply(s: State, step: Step): State
    requires Enabled(s, step)
  {
    match step
    case Accept(l) => Accepted(s, l)
    case RunFunctor(l) => RunHead(s, l)
    case Event(c, r, read) =>
      // where the assertion of handleClose fails the model makes no move
      var conn := s.recs[c].conn;
      if conn.Live() && OnEvent(conn, r, read) == Ok(Closed(conn)) then RunClose(s, c) else s
    case ForceCloseHere(c) =>
      var conn := s.recs[c].conn;
      if conn.Live() then RunClose(WithConn(s, c, conn.(state := Disconnecting)), c) else s
    case ForceCloseAway(c) =>
      var conn := s.recs[c].conn;
      if conn.Live() then Queued(WithConn(s, c, conn.(state := Disconnecting)), s.recs[c].loop, ForceClose(c)) else s
    case Shutdown(c) =>
      var conn := s.recs[c].conn;
      if conn.state == Connected then WithConn(s, c, conn.(state := Disconnecting)) else s
    case SetWriting(c, on) => WithConn(s, c, s.recs[c].conn.(writing := on))
    case SetReading(c, on) =>
      var r := s.recs[c];
      Updated(s, c, r.(conn := r.conn.(reading := on, added := true), late := on && !r.conn.Live()))
  }

  // ---------- invariants ----------

  /** How often a functor waits in a loop's queue. */
  function Count(s: State, l: nat, f: Functor): nat {
    if l < |s.queues| then multiset(s.queues[l])[f] else 0
  }

  const LIFE := [WasUp, WasDown, WasErased, WasDestroyed]

  /**
   What a connection is like by the length of its history, which is a prefix of LIFE: its
   state, what was reported, its interest and registration, and its map entry.
   */
  predicate Coherent(r: Record) {
    var n := |r.history|;
    && n <= 4 && r.history == LIFE[..n]
    && (r.conn.state == Connecting <==> n == 0)
    && (r.conn.state == Disconnected <==> n >= 2)
    && r.conn.reports == [Up, Down][..if n < 2 then n else 2]
    && (n == 0 || n >= 2 ==> !r.conn.writing && (r.conn.reading <==> r.late))
    && (n <= 1 ==> !r.late)
    && (r.conn.added <==> 1 <= n <= 3)
    && (r.listed <==> n <= 2)
  }

  /** How many functors of each kind wait for connection c: establish, remove, destroy. */
  predicate Waits(s: State, c: Id, e: nat, r: nat, d: nat)
    requires Known(s, c)
  {
    var l := s.recs[c].loop;
    && Count(s, l, Establish(c)) == e && Count(s, 0, Remove(c)) == r && Count(s, l, Destroy(c)) == d
    && (|s.recs[c].history| == 0 ==> Count(s, l, ForceClose(c)) == 0)
  }

  /** Exactly one functor waits to take a connection on, except while it is open and when it is gone. */
  predicate Stage(s: State, c: Id) {
    && Known(s, c) && Coherent(s.recs[c])
    && var n := |s.recs[c].history|;
       Waits(s, c, if n == 0 then 1 else 0, if n == 2 then 1 else 0, if n == 3 then 1 else 0)
  }

  /** A functor waits only in the queue it belongs to. */
  predicate Placed(s: State, f: Functor) {
    forall l: nat :: l < |s.queues| && Count(s, l, f) > 0 ==>
      f.c < |s.recs| && l == if f.Remove? then 0 else s.recs[f.c].loop
  }

  ghost predicate Inv(s: State) {
    && |s.queues| > 0
    && (forall f {:trigger Placed(s, f)} :: Placed(s, f))
    && (forall c {:trigger Stage(s, c)} :: 0 <= c < |s.recs| ==> Stage(s, c))
  }

  lemma InitialInv(s: State)
    requires Initial(s)
    ensures Inv(s)
  {
  }

  // ---------- one connection moves, the others stay ----------

  ghost predicate OnlyAbout(s: State, t: State, c: Id) {
    && |t.queues| == |s.queues| && c <= |s.recs| && |s.recs| <= |t.recs|
    && |t.recs| == (if c < |s.recs| then |s.recs| else c + 1)
    && (forall d :: 0 <= d < |s.recs| && d != c ==> t.recs[d] == s.recs[d])
    && (c < |s.recs| ==> t.recs[c].loop == s.recs[c].loop)
    && (forall l: nat, f: Functor :: f.c != c ==> Count(t, l, f) == Count(s, l, f))
  }

  lemma OtherStage(s: State, t: State, c: Id, d: Id)
    requires OnlyAbout(s, t, c) && d < |s.recs| && d != c && Stage(s, d)
    ensures Stage(t, d)
  {
    var l := s.recs[d].loop;
    assert t.recs[d] == s.recs[d];
    assert Count(t, l, Establish(d)) == Count(s, l, Establish(d));
    assert Count(t, 0, Remove(d)) == Count(s, 0, Remove(d));
    assert Count(t, l, Destroy(d)) == Count(s, l, Destroy(d));
    assert Count(t, l, ForceClose(d)) == Count(s, l, ForceClose(d));
  }

  lemma OtherPlaced(s: State, t: State, c: Id, f: Functor)
    requires OnlyAbout(s, t, c) && f.c != c && Placed(s, f)
    ensures Placed(t, f)
  {
    forall l: nat | l < |t.queues| && Count(t, l, f) > 0
      ensures f.c < |t.recs| && l == if f.Remove? then 0 else t.recs[f.c].loop
    {
      assert Count(s, l, f) > 0;
    }
  }

  /** A step about one connection keeps the invariant when that connection's own part holds after it. */
  lemma Rebuild(s: State, t: State, c: Id)
    requires Inv(s) && OnlyAbout(s, t, c) && Stage(t, c)
    requires forall f: Functor :: f.c == c ==> Placed(t, f)
    ensures Inv(t)
  {
    forall d | 0 <= d < |t.recs| ensures Stage(t, d) {
      if d != c {
        assert Stage(s, d);
        OtherStage(s, t, c, d);
      }
    }
    forall f: Functor ensures Placed(t, f) {
      if f.c != c {
        assert Placed(s, f);
        OtherPlaced(s, t, c, f);
      }
    }
  }

  ghost predicate PlacedFor(t: State, c: Id) {
    forall f: Functor {:trigger Placed(t, f)} :: f.c == c ==> Placed(t, f)
  }

  /** In the middle of a step about c: everything is in order, and no functor of c waits. */
  ghost predicate Ready(s: State, t: State, c: Id) {
    && Inv(s) && OnlyAbout(s, t, c) && Known(t, c) && Coherent(t.recs[c]) && Waits(t, c, 0, 0, 0) && PlacedFor(t, c)
  }

  lemma QueueCounts(s: State, l: nat, g: Functor)
    requires l < |s.queues|
    ensures forall k: nat, f: Functor ::
              Count(Queued(s, l, g), k, f) == Count(s, k, f) + if k == l && f == g then 1 else 0
  {
  }

  lemma PopCounts(s: State, l: nat)
    requires l < |s.queues| && s.queues[l] != []
    ensures var t := s.(queues := s.queues[l := s.queues[l][1..]]);
            forall k: nat, f: Functor ::
              Count(t, k, f) == Count(s, k, f) - if k == l && f == s.queues[l][0] then 1 else 0
  {
    var q := s.queues[l];
    assert q == [q[0]] + q[1..];
    assert multiset(q) == multiset{q[0]} + multiset(q[1..]);
  }

  /** Placement depends only on the counts and the loops. */
  lemma PlacedStays(s: State, t: State, c: Id, l: nat, g: Functor)
    requires PlacedFor(s, c) && c < |s.recs| && c < |t.recs| && t.recs[c].loop == s.recs[c].loop
             && |t.queues| == |s.queues|
    requires l == if g.Remove? then 0 else s.recs[c].loop
    requires forall k: nat, f: Functor :: f.c == c && Count(t, k, f) > 0 ==> Count(s, k, f) > 0 || (k == l && f == g)
    ensures PlacedFor(t, c)
  {
    forall f: Functor | f.c == c ensures Placed(t, f) {
      assert Placed(s, f);
    }
  }

  lemma EstablishStep(s: State, t: State, c: Id)
    requires Ready(s, t, c) && |t.recs[c].history| == 0
    ensures Inv(RunEstablish(t, c))
  {
    var u := RunEstablish(t, c);
    assert forall k: nat, f: Functor :: Count(u, k, f) == Count(t, k, f);
    PlacedStays(t, u, c, 0, Remove(c));
    Rebuild(s, u, c);
  }

  lemma RemoveStep(s: State, t: State, c: Id)
    requires Ready(s, t, c) && |t.recs[c].history| == 2
    ensures Inv(RunRemove(t, c))
  {
    var r := t.recs[c];
    var v := Updated(t, c, r.(listed := false, history := r.history + [WasErased]));
    var u := RunRemove(t, c);
    assert forall k: nat, f: Functor :: Count(v, k, f) == Count(t, k, f);
    QueueCounts(v, r.loop, Destroy(c));
    PlacedStays(t, u, c, r.loop, Destroy(c));
    Rebuild(s, u, c);
  }

  lemma DestroyStep(s: State, t: State, c: Id)
    requires Ready(s, t, c) && |t.recs[c].history| == 3
    ensures Inv(RunDestroy(t, c))
  {
    var u := RunDestroy(t, c);
    assert forall k: nat, f: Functor :: Count(u, k, f) == Count(t, k, f);
    PlacedStays(t, u, c, 0, Remove(c));
    Rebuild(s, u, c);
  }

  lemma CloseStep(s: State, t: State, c: Id)
    requires Ready(s, t, c) && |t.recs[c].history| == 1
    ensures Inv(RunClose(t, c))
  {
    var r := t.recs[c];
    var v := Updated(t, c, r.(conn := Closed(r.conn), history := r.history + [WasDown]));
    assert forall k: nat, f: Functor :: Count(v, k, f) == Count(t, k, f);
    PlacedStays(t, v, c, 0, Remove(c));
    if r.loop == 0 {
      RemoveStep(s, v, c);
    } else {
      var u := RunClose(t, c);
      QueueCounts(v, 0, Remove(c));
      PlacedStays(v, u, c, 0, Remove(c));
      Rebuild(s, u, c);
    }
  }

  lemma AcceptStep(s: State, l: nat)
    requires Inv(s) && l < |s.queues|
    ensures Inv(Accepted(s, l))
  {
    var c := |s.recs|;
    var t := s.(recs := s.recs + [Record(NEW_CONN, l, true, [], false)]);
    assert forall k: nat, f: Functor :: Count(t, k, f) == Count(s, k, f);
    forall f: Functor | f.c == c ensures forall k: nat :: Count(s, k, f) == 0 {
      assert Placed(s, f);
    }
    assert PlacedFor(t, c);
    assert Ready(s, t, c);
    if l == 0 {
      EstablishStep(s, t, c);
    } else {
      var u := Accepted(s, l);
      QueueCounts(t, l, Establish(c));
      PlacedStays(t, u, c, l, Establish(c));
      Rebuild(s, u, c);
    }
  }

  /** The head of a queue has left it: the connection stands where that functor finds it. */
  lemma Popped(s: State, l: nat)
    requires Inv(s) && Enabled(s, RunFunctor(l))
    ensures var f := s.queues[l][0];
            var t := s.(queues := s.queues[l := s.queues[l][1..]]);
            var n := |t.recs[f.c].history|;
            match f
            case Establish(c) => n == 0 && Ready(s, t, c)
            case Remove(c) => n == 2 && Ready(s, t, c)
            case Destroy(c) => n == 3 && Ready(s, t, c)
            case ForceClose(c) => n > 0 && Inv(t)
  {
    var f := s.queues[l][0];
    var t := s.(queues := s.queues[l := s.queues[l][1..]]);
    PopCounts(s, l);
    assert Placed(s, f) && Count(s, l, f) > 0 && Stage(s, f.c);
    assert PlacedFor(s, f.c) by {
      forall g: Functor | g.c == f.c ensures Placed(s, g) {}
    }
    PlacedStays(s, t, f.c, l, f);
    if f.ForceClose? {
      Rebuild(s, t, f.c);
    }
  }

  lemma OpenIsReady(s: State, c: Id)
    requires Inv(s) && Known(s, c) && s.recs[c].conn.Live()
    ensures Ready(s, s, c) && |s.recs[c].history| == 1
  {
    assert Stage(s, c);
    forall g: Functor | g.c == c ensures Placed(s, g) {}
  }

  lemma HeadStep(s: State, l: nat)
    requires Inv(s) && Enabled(s, RunFunctor(l))
    ensures Inv(RunHead(s, l))
  {
    Popped(s, l);
    var t := s.(queues := s.queues[l := s.queues[l][1..]]);
    match s.queues[l][0]
    case Establish(c) => EstablishStep(s, t, c);
    case Remove(c) => RemoveStep(s, t, c);
    case Destroy(c) => DestroyStep(s, t, c);
    case ForceClose(c) =>
      if t.recs[c].conn.Live() {
        OpenIsReady(t, c);
        CloseStep(t, t, c);
      }
  }

  /** Changing an open connection's interest, or moving it to Disconnecting. */
  lemma OpenChanges(s: State, c: Id, conn: Conn)
    requires Inv(s) && Known(s, c) && s.recs[c].conn.Live() && conn.Live()
    requires conn.reports == s.recs[c].conn.reports && conn.added == s.recs[c].conn.added
    ensures Inv(WithConn(s, c, conn)) && Known(WithConn(s, c, conn), c)
  {
    var t := WithConn(s, c, conn);
    OpenIsReady(s, c);
    assert forall k: nat, f: Functor :: Count(t, k, f) == Count(s, k, f);
    PlacedStays(s, t, c, 0, Remove(c));
    Rebuild(s, t, c);
  }

  lemma ReadingStep(s: State, c: Id, on: bool)
    requires Inv(s) && Enabled(s, SetReading(c, on))
    ensures Inv(Apply(s, SetReading(c, on)))
  {
    var t := Apply(s, SetReading(c, on));
    assert Stage(s, c);
    forall g: Functor | g.c == c ensures Placed(s, g) {}
    assert forall k: nat, f: Functor :: Count(t, k, f) == Count(s, k, f);
    PlacedStays(s, t, c, 0, Remove(c));
    Rebuild(s, t, c);
  }

  lemma AwayStep(s: State, c: Id)
    requires Inv(s) && Known(s, c) && s.recs[c].conn.Live()
    ensures Inv(Queued(s, s.recs[c].loop, ForceClose(c)))
  {
    var l := s.recs[c].loop;
    var t := Queued(s, l, ForceClose(c));
    OpenIsReady(s, c);
    QueueCounts(s, l, ForceClose(c));
    PlacedStays(s, t, c, l, ForceClose(c));
    Rebuild(s, t, c);
  }

  lemma StepInv(s: State, step: Step)
    requires Inv(s) && Enabled(s, step)
    ensures Inv(Apply(s, step))
  {
    match step
    case Accept(l) => AcceptStep(s, l);
    case RunFunctor(l) => HeadStep(s, l);
    case Event(c, r, read) =>
      if s.recs[c].conn.Live() {
        OpenIsReady(s, c);
        CloseStep(s, s, c);
      }
    case ForceCloseHere(c) =>
      if s.recs[c].conn.Live() {
        var conn := s.recs[c].conn.(state := Disconnecting);
        OpenChanges(s, c, conn);
        OpenIsReady(WithConn(s, c, conn), c);
        CloseStep(WithConn(s, c, conn), WithConn(s, c, conn), c);
      }
    case ForceCloseAway(c) =>
      if s.recs[c].conn.Live() {
        var conn := s.recs[c].conn.(state := Disconnecting);
        OpenChanges(s, c, conn);
        AwayStep(WithConn(s, c, conn), c);
      }
    case Shutdown(c) =>
      if s.recs[c].conn.state == Connected {
        OpenChanges(s, c, s.recs[c].conn.(state := Disconnecting));
      }
    case SetWriting(c, on) => OpenChanges(s, c, s.recs[c].conn.(writing := on));
    case SetReading(c, on) => ReadingStep(s, c, on);
  }

  // ---------- every run ----------

  predicate IsRun(s: State, steps: seq<Step>)
    decreases |steps|
  {
    steps == [] || (Enabled(s, steps[0]) && IsRun(Apply(s, steps[0]), steps[1..]))
  }

  function After(s: State, steps: seq<Step>): State
    requires IsRun(s, steps)
    decreases |steps|
  {
    if steps == [] then s else After(Apply(s, steps[0]), steps[1..])
  }

  lemma {:induction false} EveryRun(s: State, steps: seq<Step>)
    requires Inv(s) && IsRun(s, steps)
    ensures Inv(After(s, steps))
    decreases |steps|
  {
    if steps != [] {
      StepInv(s, steps[0]);
      EveryRun(Apply(s, steps[0]), steps[1..]);
    }
  }

  /** A strong reference to the connection is held by the map or by a queued functor. */
  predicate Referenced(s: State, c: Id)
    requires Known(s, c)
  {
    var l := s.recs[c].loop;
    s.recs[c].listed || Count(s, 0, Remove(c)) > 0 || Count(s, l, Destroy(c)) > 0
  }

  /**
   In every state of every run, each connection is reported UP once, then DOWN once, then
   erased once, then destroyed once; it is referenced until destroyed; and once closed it
   stays Disconnected, with no interest unless a startRead came after the close.
   */
  lemma LifeInOrder(s: State, steps: seq<Step>, c: Id)
    requires Initial(s) && IsRun(s, steps) && c < |After(s, steps).recs|
    ensures var t := After(s, steps);
            && Known(t, c)
            && t.recs[c].history <= LIFE
            && (WasDestroyed !in t.recs[c].history ==> Referenced(t, c))
            && (WasDown in t.recs[c].history ==>
                  t.recs[c].conn.state == Disconnected && (t.recs[c].conn.Quiet() <==> !t.recs[c].late))
            && (WasDestroyed in t.recs[c].history <==> t.recs[c].conn.state == Disconnected && !t.recs[c].conn.added)
            && t.recs[c].conn.reports <= [Up, Down]
  {
    InitialInv(s);
    EveryRun(s, steps);
    var t := After(s, steps);
    assert Stage(t, c);
    var n := |t.recs[c].history|;
    assert t.recs[c].history == LIFE[..n];
    assert n == 4 ==> LIFE[..n][3] == WasDestroyed;
    assert n >= 2 ==> LIFE[..n][1] == WasDown;
  }

  /** When every queue has drained, each connection is either open or has lived its whole life. */
  lemma DrainedIsSettled(s: State, steps: seq<Step>, c: Id)
    requires Initial(s) && IsRun(s, steps) && c < |After(s, steps).recs|
    requires forall l :: 0 <= l < |After(s, steps).queues| ==> After(s, steps).queues[l] == []
    ensures var r := After(s, steps).recs[c];
            (r.conn.Live() && r.listed && r.history == [WasUp]) || (r.history == LIFE && !r.listed && !r.conn.added)
  {
    InitialInv(s);
    EveryRun(s, steps);
    var t := After(s, steps);
    assert Stage(t, c);
    var n := |t.recs[c].history|;
    assert n == 1 || n == 4;
    assert LIFE[..1] == [WasUp] && LIFE[..4] == LIFE;
  }

  /**
   Each assertion of the protocol holds where a functor meets it; that of Channel::remove
   exactly when no startRead came after the close.
   */
  lemma AssertionsHold(s: State, steps: seq<Step>, l: nat)
    requires Initial(s) && IsRun(s, steps) && Enabled(After(s, steps), RunFunctor(l))
    ensures var t := After(s, steps);
            var f := t.queues[l][0];
            var r := t.recs[f.c];
            && (f.Establish? ==> r.conn.state == Connecting)
            && (f.Remove? ==> r.listed)
            && (f.Destroy? ==> r.conn.state == Disconnected && r.conn.added && (r.conn.Quiet() <==> !r.late))
  {
    InitialInv(s);
    EveryRun(s, steps);
    Popped(After(s, steps), l);
  }

  /**
   The assertion of handleClose fails on an event exactly if the event closes and the
   connection is closed already, or the event closes twice.
   */
  lemma EventAssertions(s: State, steps: seq<Step>, c: Id, r: Revents, read: Read)
    requires Initial(s) && IsRun(s, steps) && Enabled(After(s, steps), Event(c, r, read))
    ensures var rec := After(s, steps).recs[c];
            OnEvent(rec.conn, r, read) == AssertionFails <==>
              if WasDown in rec.history then ClosesOnce(r, read) else ClosesTwice(r, read)
  {
    InitialInv(s);
    EveryRun(s, steps);
    var t := After(s, steps);
    assert Stage(t, c);
    var n := |t.recs[c].history|;
    assert n >= 2 ==> LIFE[..n][1] == WasDown;
    AssertionFailsExactly(t.recs[c].conn, r, read);
  }

  // ---------- where the assertions fail ----------

  lemma {:induction false} Then(s: State, a: seq<Step>, step: Step)
    requires IsRun(s, a) && Enabled(After(s, a), step)
    ensures IsRun(s, a + [step]) && After(s, a + [step]) == Apply(After(s, a), step)
    decreases |a|
  {
    if a == [] {
      assert a + [step] == [step] && [step][1..] == [];
    } else {
      assert (a + [step])[1..] == a[1..] + [step];
      Then(Apply(s, a[0]), a[1..], step);
    }
  }

  /** One loop, no connections. */
  const START := State([], [[]])

  const UP_CONN := Conn(Connected, true, false, true, [Up])
  const DOWN_CONN := Conn(Disconnected, false, false, true, [Up, Down])
  const POLLED_IN := Revents(true, false, false, false, false, false, false)

  const UP := Record(UP_CONN, 0, true, [WasUp], false)
  const ERASED := Record(DOWN_CONN, 0, false, [WasUp, WasDown, WasErased], false)

  /** An accept in the base loop, for the base loop. */
  lemma AcceptedHere(recs: seq<Record>)
    ensures Enabled(State(recs, [[]]), Accept(0)) && Apply(State(recs, [[]]), Accept(0)) == State(recs + [UP], [[]])
  {
    var accepted := Record(NEW_CONN, 0, true, [], false);
    assert [] + [Up] == [Up] && [] + [WasUp] == [WasUp];
    assert accepted.(conn := Established(NEW_CONN), history := [] + [WasUp]) == UP;
    assert (recs + [accepted])[|recs| := UP] == recs + [UP];
  }

  /** forceClose in the base loop of a connection of that loop, with nothing queued. */
  lemma ClosedHere(recs: seq<Record>, c: Id)
    requires c < |recs| && recs[c] == UP
    ensures Enabled(State(recs, [[]]), ForceCloseHere(c))
    ensures Apply(State(recs, [[]]), ForceCloseHere(c)) == State(recs[c := ERASED], [[Destroy(c)]])
  {
    var s := WithConn(State(recs, [[]]), c, UP_CONN.(state := Disconnecting));
    var down := Record(DOWN_CONN, 0, true, [WasUp, WasDown], false);
    assert [Up] + [Down] == [Up, Down] && [WasUp] + [WasDown] == [WasUp, WasDown];
    var r := s.recs[c];
    assert r.(conn := Closed(r.conn), history := r.history + [WasDown]) == down;
    var t := Updated(s, c, down);
    assert t.recs[c] == down && RunClose(s, c) == RunRemove(t, c);
    assert [WasUp, WasDown] + [WasErased] == [WasUp, WasDown, WasErased];
    assert down.(listed := false, history := down.history + [WasErased]) == ERASED;
    assert t.recs[c := ERASED] == recs[c := ERASED];
    var none: seq<Functor> := [];
    assert none + [Destroy(c)] == [Destroy(c)] && [none][0 := [Destroy(c)]] == [[Destroy(c)]];
  }

  /**
   A stale event: both connections of one loop are in the same poll's list, the callback of
   the first closes the second, and the second's POLLIN then finds an end of stream. Nothing
   has turned its interest on again.
   */
  lemma StaleEventFails()
    ensures var steps := [] + [Accept(0)] + [Accept(0)] + [ForceCloseHere(1)];
            && Initial(START) && IsRun(START, steps)
            && var t := After(START, steps);
               && Enabled(t, Event(1, POLLED_IN, Eof)) && t.recs[1].conn.Quiet() && !t.recs[1].late
               && OnEvent(t.recs[1].conn, POLLED_IN, Eof) == AssertionFails
  {
    var accepted := [] + [Accept(0)] + [Accept(0)];
    AcceptedHere([]);
    Then(START, [], Accept(0));
    AcceptedHere([] + [UP]);
    Then(START, [] + [Accept(0)], Accept(0));
    ClosedHere([] + [UP] + [UP], 1);
    Then(START, accepted, ForceCloseHere(1));
    var t := After(START, accepted + [ForceCloseHere(1)]);
    assert t.recs[1] == ERASED && |t.queues| == 1;
  }

  /**
   A startRead after the close: an end of stream then fails the assertion of handleClose, and
   connectDestroyed, which is next, finds interest in Channel::remove.
   */
  lemma LateReadFails()
    ensures var steps := [] + [Accept(0)] + [ForceCloseHere(0)] + [SetReading(0, true)];
            && Initial(START) && IsRun(START, steps)
            && var t := After(START, steps);
               && Enabled(t, RunFunctor(0)) && t.queues[0][0] == Destroy(0)
               && !t.recs[0].conn.Quiet() && t.recs[0].late
               && Enabled(t, Event(0, POLLED_IN, Eof)) && OnEvent(t.recs[0].conn, POLLED_IN, Eof) == AssertionFails
  {
    AcceptedHere([]);
    Then(START, [], Accept(0));
    ClosedHere([] + [UP], 0);
    Then(START, [] + [Accept(0)], ForceCloseHere(0));
    var t := After(START, [] + [Accept(0)] + [ForceCloseHere(0)]);
    assert t.recs[0] == ERASED && t.queues == [[Destroy(0)]];
    Then(START, [] + [Accept(0)] + [ForceCloseHere(0)], SetReading(0, true));
  }
}
