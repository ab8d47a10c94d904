/**
 TcpConnection and the event dispatch of Channel: the four-state machine of a connection,
 and its output path with partial writes and half-close.
 */
module Connection {
  import opened Bytes
  import opened NetBuffer

  datatype ConnState = Connecting | Connected | Disconnecting | Disconnected

  /** What the connection callback has been told. */
  datatype Report = Up | Down

  /** The lifecycle fields: state_, the channel's interest and registration, and the reports made. */
  datatype Conn = Conn(state: ConnState, reading: bool, writing: bool, added: bool, reports: seq<Report>)
  {
    predicate Live() {
      state == Connected || state == Disconnecting
    }

    /** Channel::isNoneEvent. */
    predicate Quiet() {
      !reading && !writing
    }
  }

  const NEW_CONN := Conn(Connecting, false, false, false, [])

  // ---------- lifecycle operations, each under the assertion the source makes ----------

  function Established(c: Conn): Conn
    requires c.state == Connecting
  {
    c.(state := Connected, reading := true, added := true, reports := c.reports + [Up])
  }

  /** handleClose up to the close callback. */
  function Closed(c: Conn): Conn
    requires c.Live()
  {
    c.(state := Disconnected, reading := false, writing := false, added := true, reports := c.reports + [Down])
  }

  /** connectDestroyed; its Channel::remove asserts that no interest is left. */
  function Destroyed(c: Conn): (d: Conn)
    ensures c.state == Disconnected ==> d == c.(added := false)
  {
    if c.Live() then Closed(c).(added := false) else c.(added := false)
  }

  // ---------- Channel::handleEventWithGuard ----------

  datatype Revents = Revents(pollin: bool, pri: bool, rdhup: bool, hup: bool, pollout: bool, err: bool, nval: bool)

  /**
   What handleRead finds: end of stream, an error, or data, whose message callback may
   itself force the connection closed.
   */
  datatype Read = Eof | ReadFault | Data(closes: bool)

  datatype Dispatch = Ok(conn: Conn) | AssertionFails

  function OnClose(d: Dispatch): Dispatch {
    if d.Ok? && d.conn.Live() then Ok(Closed(d.conn)) else AssertionFails
  }

  function OnRead(d: Dispatch, read: Read): Dispatch {
    match d
    case AssertionFails => d
    case Ok(c) =>
      match read
      case Eof => OnClose(d)
      case ReadFault => d
      case Data(closes) => if closes && c.Live() then OnClose(d) else d
  }

  /** Close, error, read and write callbacks in the order of the source; error and write do not move the lifecycle. */
  function OnEvent(c: Conn, r: Revents, read: Read): Dispatch {
    var d := if r.hup && !r.pollin then OnClose(Ok(c)) else Ok(c);
    if r.pollin || r.pri || r.rdhup then OnRead(d, read) else d
  }

  /** An event that would close twice: a hang-up without POLLIN but with PRI or RDHUP, and then an end of stream. */
  predicate ClosesTwice(r: Revents, read: Read) {
    r.hup && !r.pollin && (r.pri || r.rdhup) && read == Eof
  }

  /** An event that closes at all. */
  predicate ClosesOnce(r: Revents, read: Read) {
    (r.hup && !r.pollin) || ((r.pollin || r.pri || r.rdhup) && read == Eof)
  }

  /**
   The assertion of handleClose fails exactly on a double close of a live connection, and
   on any closing event delivered to one that is no longer live.
   */
  lemma AssertionFailsExactly(c: Conn, r: Revents, read: Read)
    ensures c.Live() ==> (OnEvent(c, r, read) == AssertionFails <==> ClosesTwice(r, read))
    ensures !c.Live() ==> (OnEvent(c, r, read) == AssertionFails <==> ClosesOnce(r, read))
    ensures c.Live() && !ClosesTwice(r, read) ==> OnEvent(c, r, read) == Ok(c) || OnEvent(c, r, read) == Ok(Closed(c))
  {
  }

  /**
   A live connection is closed by an event exactly on a hang-up without POLLIN, and on anything
   to read if the read finds the end of the stream or its message callback forces a close.
   */
  lemma ClosesExactly(c: Conn, r: Revents, read: Read)
    requires c.Live() && !ClosesTwice(r, read)
    ensures OnEvent(c, r, read) ==
            if (r.hup && !r.pollin) || ((r.pollin || r.pri || r.rdhup) && (read == Eof || read == Data(true)))
            then Ok(c.(state := Disconnected, reading := false, writing := false, added := true,
                       reports := c.reports + [Down]))
            else Ok(c)
  {
  }

  /** The mask that closes twice: HUP and PRI without POLLIN, and an end of stream. */
  lemma DoubleClose(c: Conn)
    requires c.Live()
    ensures OnEvent(c, Revents(false, true, false, true, false, false, false), Eof) == AssertionFails
  {
  }

  // ---------- the output path ----------

  datatype Errno = WouldBlock | BrokenPipe | ConnReset | OtherErrno
  datatype WriteResult = Wrote(n: nat) | WriteError(errno: Errno)

  /** Callbacks queued to the loop. */
  datatype Notice = WriteComplete | HighWaterMark(size: nat)

  /**
   One step of the output path, with the kernel's answer. shutdown() and forceClose() only set
   the state, in any thread; ShutWrite and Close are what runs in the loop, at once or later.
   */
  datatype Call =
    | Send(message: seq<byte>, kernel: WriteResult)
    | Writable(kernel: WriteResult)
    | BeginShutdown              // shutdown()
    | BeginForceClose            // forceClose() and forceCloseWithDelay()
    | ShutWrite                  // shutdownInLoop()
    | Close                      // handleClose()

  /**
   The output path as a value: whether it is open, closing or closed, the bytes waiting, the
   bytes on the wire, and whether the write side is shut.
   */
  datatype Output = Output(state: ConnState, waiting: seq<byte>, wire: seq<byte>, shut: bool)
  {
    predicate Live() {
      state == Connected || state == Disconnecting
    }
  }

  /** The kernel takes any part of what it is given, and nothing once the write side is shut. */
  predicate MayAnswer(o: Output, kernel: WriteResult, len: nat) {
    kernel.Wrote? ==> kernel.n <= len && (o.shut ==> kernel.n == 0)
  }

  predicate Callable(o: Output, call: Call) {
    match call
    case Send(m, kernel) => MayAnswer(o, kernel, |m|)
    case Writable(kernel) => MayAnswer(o, kernel, |o.waiting|)
    case ShutWrite => o.state == Disconnecting || o.state == Disconnected
    case _ => true
  }

  predicate Drops(o: Output, call: Call) {
    || o.state == Disconnected
    || (call.Send? && o.waiting == [] && call.kernel in {WriteError(BrokenPipe), WriteError(ConnReset)})
  }

  function Taken(kernel: WriteResult): nat {
    if kernel.Wrote? then kernel.n else 0
  }

  function Written(o: Output, call: Call): Output
    requires Callable(o, call)
  {
    match call
    case Send(m, kernel) =>
      if Drops(o, call) then o
      else
        var n := if o.waiting == [] then Taken(kernel) else 0;
        o.(wire := o.wire + m[..n], waiting := o.waiting + m[n..])
    case Writable(kernel) =>
      if o.state == Disconnected then o
      else
        var n := Taken(kernel);
        var rest := o.waiting[n..];
        o.(wire := o.wire + o.waiting[..n], waiting := rest,
           shut := o.shut || (o.waiting != [] && rest == [] && o.state == Disconnecting))
    case BeginShutdown => if o.state == Connected then o.(state := Disconnecting) else o
    case BeginForceClose => if o.Live() then o.(state := Disconnecting) else o
    case ShutWrite => o.(shut := o.shut || o.state == Disconnected || o.waiting == [])
    case Close => if o.Live() then o.(state := Disconnected) else o
  }

  /** A message buffered though the write side is shut: the kernel answered neither EPIPE nor ECONNRESET. */
  predicate Strays(o: Output, call: Call) {
    o.shut && call.Send? && call.message != [] && !Drops(o, call)
  }

  /**
   The callbacks a call queues: write-complete when the last byte leaves, high-water when the
   bytes waiting come to reach the mark from below.
   */
  function Notices(o: Output, call: Call, writeComplete: bool, mark: Option<nat>): seq<Notice>
    requires Callable(o, call)
  {
    var p := Written(o, call);
    var drained :=
      match call
      case Send(m, kernel) => o.waiting == [] && kernel == Wrote(|m|)
      case Writable(_) => o.waiting != [] && p.waiting == []
      case _ => false;
    if o.state == Disconnected then []
    else
      (if writeComplete && drained then [WriteComplete] else [])
      + if mark.Some? && |o.waiting| < mark.value <= |p.waiting| && |o.waiting| < |p.waiting|
        then [HighWaterMark(|p.waiting|)] else []
  }

  /**
   Wire and waiting bytes are the stream of accepted messages; write interest is on exactly
   while bytes wait in an open connection; behind a shut write side only stray bytes wait.
   */
  predicate Sound(o: Output, writing: bool, stream: seq<byte>, strayed: bool) {
    && o.wire + o.waiting == stream
    && (writing <==> o.state != Disconnected && o.waiting != [])
    && (o.state != Disconnected && o.shut ==> o.waiting == [] || strayed)
  }

  lemma StepIsSound(o: Output, call: Call, writing: bool, stream: seq<byte>, strayed: bool)
    requires Callable(o, call) && Sound(o, writing, stream, strayed)
    ensures var p := Written(o, call);
            Sound(p, p.state != Disconnected && p.waiting != [], stream + AcceptedOf(o, call),
                  strayed || Strays(o, call))
    ensures stream + [] == stream
  {
    OneCall(o, call);
  }

  lemma NothingTaken(o: Output, kernel: WriteResult, writeComplete: bool)
    requires Callable(o, Writable(kernel)) && (o.state == Disconnected || o.waiting == [] || Taken(kernel) == 0)
    ensures Written(o, Writable(kernel)) == o && Notices(o, Writable(kernel), writeComplete, None) == []
  {
    assert o.wire + o.waiting[..0] == o.wire && o.waiting[0..] == o.waiting;
  }

  lemma SentToClosed(o: Output, call: Call, writeComplete: bool, mark: Option<nat>)
    requires call.Send? && Callable(o, call) && o.state == Disconnected
    ensures Written(o, call) == o && Drops(o, call) && !Strays(o, call) && Notices(o, call, writeComplete, mark) == []
    ensures AcceptedOf(o, call) == []
  {
  }

  /** The callbacks queued by the two halves of sendInLoop. */
  function FirstNotices(o: Output, message: seq<byte>, kernel: WriteResult, writeComplete: bool): seq<Notice> {
    if o.waiting == [] && kernel == Wrote(|message|) && writeComplete then [WriteComplete] else []
  }

  function RestNotices(o: Output, rest: seq<byte>, mark: Option<nat>): seq<Notice> {
    var before, after := |o.waiting|, |o.waiting| + |rest|;
    if mark.Some? && before < mark.value <= after then [HighWaterMark(after)] else []
  }

  lemma OfferedInParts(o: Output, message: seq<byte>, kernel: WriteResult, nwrote: nat, fault: bool,
                       writeComplete: bool, mark: Option<nat>)
    requires o.state != Disconnected && Callable(o, Send(message, kernel))
    requires nwrote == if o.waiting == [] then Taken(kernel) else 0
    requires fault <==> o.waiting == [] && kernel in {WriteError(BrokenPipe), WriteError(ConnReset)}
    ensures var call := Send(message, kernel);
            && Drops(o, call) == fault
            && (fault ==> o.wire + message[..nwrote] == o.wire)
            && Written(o, call) ==
               (if fault then o
                else o.(wire := o.wire + message[..nwrote], waiting := o.waiting + message[nwrote..]))
            && Notices(o, call, writeComplete, mark) ==
               FirstNotices(o, message, kernel, writeComplete)
               + if fault then [] else RestNotices(o, message[nwrote..], mark)
  {
    assert o.wire + message[..0] == o.wire;
  }

  class TcpConnection {
    var state: ConnState
    var reading: bool
    var writing: bool
    var added: bool
    ghost var reports: seq<Report>
    const outputBuffer: Buffer
    const writeCompleteSet: bool
    const highWaterSet: bool
    const highWaterMark: nat
    var queued: seq<Notice>
    var writeShut: bool
    ghost var wire: seq<byte>     // bytes the kernel has taken
    ghost var stream: seq<byte>   // bytes of all messages accepted
    ghost var strayed: bool       // a message was buffered with the write side shut

    ghost function View(): Conn
      reads this
    {
      Conn(state, reading, writing, added, reports)
    }

    ghost predicate Valid()
      reads this, outputBuffer, outputBuffer.data
    {
      outputBuffer.Valid() && Sound(Out(), writing, stream, strayed)
    }

    ghost function Out(): Output
      requires outputBuffer.Valid()
      reads this, outputBuffer, outputBuffer.data
    {
      Output(state, outputBuffer.Contents(), wire, writeShut)
    }

    constructor (writeComplete: bool, highWater: bool, mark: nat)
      ensures Valid() && View() == NEW_CONN && stream == [] && wire == [] && queued == [] && !writeShut && !strayed
      ensures fresh(outputBuffer) && fresh(outputBuffer.data)
    {
      state, reading, writing, added, reports := Connecting, false, false, false, [];
      outputBuffer := new Buffer();
      writeCompleteSet, highWaterSet, highWaterMark := writeComplete, highWater, mark;
      queued, writeShut := [], false;
      wire, stream, strayed := [], [], false;
    }

    /**
     Writes what it can when nothing is waiting, and buffers the rest. The message joins the
     stream whole, or is dropped whole: when disconnected, and on a fatal write error.
     */
    method SendInLoop(message: seq<byte>, kernel: WriteResult) returns (dropped: bool)
      requires Valid() && Callable(Out(), Send(message, kernel))
      modifies this, outputBuffer, outputBuffer.data
      ensures Valid() && (outputBuffer.data == old(outputBuffer.data) || fresh(outputBuffer.data))
      ensures View() == old(View()).(writing := writing, added := added)
      ensures Out() == Written(old(Out()), Send(message, kernel))
      ensures dropped == Drops(old(Out()), Send(message, kernel))
      ensures stream == old(stream) + if dropped then [] else message
      ensures strayed == (old(strayed) || Strays(old(Out()), Send(message, kernel)))
      ensures queued == old(queued)
              + Notices(old(Out()), Send(message, kernel), writeCompleteSet,
                        if highWaterSet then Some(highWaterMark) else None)
    {
      ghost var o, call := Out(), Send(message, kernel);
      StepIsSound(o, call, writing, stream, strayed);
      dropped := Offer(message, kernel);
      stream := stream + AcceptedOf(o, call);
      strayed := strayed || Strays(o, call);
    }

    /** The body of sendInLoop. */
    method Offer(message: seq<byte>, kernel: WriteResult) returns (dropped: bool)
      requires outputBuffer.Valid() && (writing <==> state != Disconnected && Out().waiting != [])
      requires Callable(Out(), Send(message, kernel))
      modifies this`wire, this`queued, this`writing, this`added, outputBuffer, outputBuffer.data
      ensures outputBuffer.Valid() && (outputBuffer.data == old(outputBuffer.data) || fresh(outputBuffer.data))
      ensures writing <==> state != Disconnected && Out().waiting != []
      ensures Out() == Written(old(Out()), Send(message, kernel))
      ensures dropped == Drops(old(Out()), Send(message, kernel))
      ensures queued == old(queued)
              + Notices(old(Out()), Send(message, kernel), writeCompleteSet,
                        if highWaterSet then Some(highWaterMark) else None)
    {
      if state == Disconnected {
        SentToClosed(Out(), Send(message, kernel), writeCompleteSet,
                     if highWaterSet then Some(highWaterMark) else None);
        return true;
      }
      ghost var o, mark := Out(), if highWaterSet then Some(highWaterMark) else None;
      var nwrote, faultError := TryWrite(message, kernel);
      OfferedInParts(o, message, kernel, nwrote, faultError, writeCompleteSet, mark);
      if !faultError {
        BufferRest(message[nwrote..]);
        Assoc(old(queued), FirstNotices(o, message, kernel, writeCompleteSet), RestNotices(o, message[nwrote..], mark));
      }
      dropped := faultError;
    }

    /** The start of sendInLoop: with nothing waiting, the message is offered to the kernel at once. */
    method TryWrite(message: seq<byte>, kernel: WriteResult) returns (nwrote: nat, faultError: bool)
      requires outputBuffer.Valid() && (writing <==> outputBuffer.ReadableBytes() > 0)
      requires kernel.Wrote? ==> kernel.n <= |message|
      modifies this`wire, this`queued
      ensures var direct := !writing && kernel.Wrote?;
              && nwrote == (if direct then kernel.n else 0)
              && wire == old(wire) + message[..nwrote]
              && queued == old(queued) + FirstNotices(old(Out()), message, kernel, writeCompleteSet)
      ensures faultError <==> !writing && kernel in {WriteError(BrokenPipe), WriteError(ConnReset)}
    {
      nwrote, faultError := 0, false;
      if !writing && outputBuffer.ReadableBytes() == 0 {
        if kernel.Wrote? {
          nwrote := kernel.n;
          wire := wire + message[..nwrote];
          if |message| - nwrote == 0 && writeCompleteSet {
            queued := queued + [WriteComplete];
          }
        } else if kernel.errno != WouldBlock {
          if kernel.errno == BrokenPipe || kernel.errno == ConnReset {
            faultError := true;
          }
        }
      }
    }

    /** The end of sendInLoop: what was not written, if anything, is buffered, and write interest is turned on. */
    method BufferRest(rest: seq<byte>)
      requires outputBuffer.Valid()
      modifies this`queued, this`writing, this`added, outputBuffer, outputBuffer.data
      ensures outputBuffer.Valid() && (outputBuffer.data == old(outputBuffer.data) || fresh(outputBuffer.data))
      ensures outputBuffer.Contents() == old(outputBuffer.Contents()) + rest
              && (writing <==> old(writing) || rest != [])
      ensures queued == old(queued) + RestNotices(old(Out()), rest, if highWaterSet then Some(highWaterMark) else None)
    {
      if |rest| > 0 {
        var oldLen := outputBuffer.ReadableBytes();
        if oldLen + |rest| >= highWaterMark && oldLen < highWaterMark && highWaterSet {
          queued := queued + [HighWaterMark(oldLen + |rest|)];
        }
        outputBuffer.Append(rest);
        if !writing {
          writing, added := true, true;
        }
      }
    }

    /** The socket is writable: the front of the buffer goes out; a drained buffer ends a pending half-close. */
    method HandleWrite(kernel: WriteResult)
      requires Valid() && Callable(Out(), Writable(kernel))
      modifies this, outputBuffer
      ensures Valid() && outputBuffer.data == old(outputBuffer.data)
      ensures View() == old(View()).(writing := writing, added := added) && stream == old(stream)
              && strayed == old(strayed)
      ensures Out() == Written(old(Out()), Writable(kernel))
      ensures queued == old(queued) + Notices(old(Out()), Writable(kernel), writeCompleteSet, None)
    {
      StepIsSound(Out(), Writable(kernel), writing, stream, strayed);
      if writing && kernel.Wrote? && kernel.n > 0 {
        Drain(kernel.n);
      } else {
        NothingTaken(Out(), kernel, writeCompleteSet);
      }
    }

    /** The kernel took n bytes of the buffer's front. */
    method Drain(n: nat)
      requires outputBuffer.Valid() && 0 < n <= outputBuffer.ReadableBytes() && state != Disconnected
      requires writing && Callable(Out(), Writable(Wrote(n)))
      modifies this`wire, this`writing, this`added, this`queued, this`writeShut, outputBuffer
      ensures outputBuffer.Valid() && outputBuffer.data == old(outputBuffer.data)
      ensures writing <==> Out().waiting != []
      ensures Out() == Written(old(Out()), Writable(Wrote(n)))
      ensures queued == old(queued) + Notices(old(Out()), Writable(Wrote(n)), writeCompleteSet, None)
    {
      wire := wire + outputBuffer.Contents()[..n];
      outputBuffer.Retrieve(n);
      if outputBuffer.ReadableBytes() == 0 {
        writing, added := false, true;
        if writeCompleteSet {
          queued := queued + [WriteComplete];
        }
        if state == Disconnecting {
          ShutdownInLoop();
        }
      }
    }

    /** Half-close, unless bytes still wait; then handleWrite does it. */
    method ShutdownInLoop()
      requires outputBuffer.Valid() && Callable(Out(), ShutWrite)
      requires writing <==> state != Disconnected && Out().waiting != []
      modifies this`writeShut
      ensures old(Valid()) ==> Valid()
      ensures Out() == Written(old(Out()), ShutWrite)
    {
      if !writing {
        writeShut := true;
      }
    }

    /** shutdown(): in the loop thread it half-closes at once, in another it queues shutdownInLoop. */
    method Shutdown(inLoop: bool) returns (queues: bool)
      requires Valid()
      modifies this`state, this`writeShut
      ensures Valid() && View() == old(View()).(state := state)
      ensures queues <==> old(state) == Connected && !inLoop
      ensures Out() == if old(state) == Connected && inLoop then Written(Written(old(Out()), BeginShutdown), ShutWrite)
                       else Written(old(Out()), BeginShutdown)
    {
      queues := false;
      if state == Connected {
        state := Disconnecting;
        if inLoop {
          ShutdownInLoop();
        } else {
          queues := true;
        }
      }
    }

    /** forceClose(): the state is set in the calling thread, and forceCloseInLoop runs at once or is queued. */
    method ForceClose(inLoop: bool) returns (queues: bool)
      requires Valid()
      modifies this`state, this`reading, this`writing, this`added, this`reports
      ensures Valid()
      ensures queues <==> old(View()).Live() && !inLoop
      ensures Out() == if inLoop then Written(Written(old(Out()), BeginForceClose), Close)
                       else Written(old(Out()), BeginForceClose)
      ensures old(View()).Live() ==>
                View() == if inLoop then Closed(old(View())) else old(View()).(state := Disconnecting)
      ensures !old(View()).Live() ==> View() == old(View())
    {
      queues := false;
      if state == Connected || state == Disconnecting {
        state := Disconnecting;
        if inLoop {
          ForceCloseInLoop();
        } else {
          queues := true;
        }
      }
    }

    method ForceCloseInLoop()
      requires Valid()
      modifies this`state, this`reading, this`writing, this`added, this`reports
      ensures Valid() && Out() == Written(old(Out()), Close)
      ensures View() == if old(View()).Live() then Closed(old(View())) else old(View())
    {
      if state == Connected || state == Disconnecting {
        HandleClose();
      }
    }

    method ConnectEstablished()
      requires Valid() && state == Connecting
      modifies this`state, this`reading, this`added, this`reports
      ensures Valid() && View() == Established(old(View()))
    {
      state := Connected;
      reading, added := true, true;
      reports := reports + [Up];
    }

    method HandleClose()
      requires Valid() && (state == Connected || state == Disconnecting)
      modifies this`state, this`reading, this`writing, this`added, this`reports
      ensures Valid() && View() == Closed(old(View())) && Out() == Written(old(Out()), Close)
    {
      state := Disconnected;
      reading, writing, added := false, false, true;
      reports := reports + [Down];
    }

    /** `quiet` is what Channel::remove asserts. */
    method ConnectDestroyed() returns (quiet: bool)
      requires Valid() && state != Connecting
      modifies this`state, this`reading, this`writing, this`added, this`reports
      ensures Valid() && View() == Destroyed(old(View()))
      ensures quiet <==> old(state) != Disconnected || old(View()).Quiet()
    {
      if state == Connected || state == Disconnecting {
        HandleClose();
      }
      quiet := !reading && !writing;
      added := false;
    }
  }

  // ---------- every run of the output path ----------

  predicate IsRun(o: Output, calls: seq<Call>)
    decreases |calls|
  {
    calls == [] || (Callable(o, calls[0]) && IsRun(Written(o, calls[0]), calls[1..]))
  }

  function After(o: Output, calls: seq<Call>): Output
    requires IsRun(o, calls)
    decreases |calls|
  {
    if calls == [] then o else After(Written(o, calls[0]), calls[1..])
  }

  /** The messages of a run that were not dropped, end to end. */
  function Accepted(o: Output, calls: seq<Call>): seq<byte>
    requires IsRun(o, calls)
    decreases |calls|
  {
    if calls == [] then []
    else
      AcceptedOf(o, calls[0]) + Accepted(Written(o, calls[0]), calls[1..])
  }

  function AcceptedOf(o: Output, call: Call): seq<byte> {
    if call.Send? && !Drops(o, call) then call.message else []
  }

  lemma OneCall(o: Output, call: Call)
    requires Callable(o, call)
    ensures var p := Written(o, call);
            p.wire + p.waiting == o.wire + o.waiting + AcceptedOf(o, call)
  {
    assert o.wire + o.waiting + [] == o.wire + o.waiting;
    if o.state != Disconnected {
      match call
      case Send(m, kernel) => Regroup(o.wire, o.waiting, m, if o.waiting == [] then Taken(kernel) else 0);
      case Writable(kernel) => Regroup(o.wire, [], o.waiting, Taken(kernel));
      case _ =>
    }
  }

  lemma Regroup(wire: seq<byte>, waiting: seq<byte>, m: seq<byte>, n: nat)
    requires n <= |m| && (waiting == [] || n == 0)
    ensures wire + m[..n] + (waiting + m[n..]) == wire + waiting + m
    ensures [] + m[n..] == m[n..] && wire + [] == wire
  {
    assert m == m[..n] + m[n..];
  }

  /**
   In every run, with shutdown and force-close called at any time in any thread, the bytes on
   the wire followed by the bytes waiting are exactly the accepted messages in order.
   */
  lemma {:induction false} StreamConserved(o: Output, calls: seq<Call>)
    requires IsRun(o, calls)
    ensures After(o, calls).wire + After(o, calls).waiting == o.wire + o.waiting + Accepted(o, calls)
    decreases |calls|
  {
    if calls == [] {
      assert o.wire + o.waiting + [] == o.wire + o.waiting;
    } else {
      OneCall(o, calls[0]);
      var p := Written(o, calls[0]);
      StreamConserved(p, calls[1..]);
      Assoc(o.wire + o.waiting, AcceptedOf(o, calls[0]), Accepted(p, calls[1..]));
    }
  }

  /** Whether some message of a run is buffered with the write side shut. */
  predicate SomeStrays(o: Output, calls: seq<Call>)
    requires IsRun(o, calls)
    decreases |calls|
  {
    calls != [] && (Strays(o, calls[0]) || SomeStrays(Written(o, calls[0]), calls[1..]))
  }

  /** Bytes that wait behind a shut write side stay there while the connection is open. */
  lemma {:induction false} StuckStays(o: Output, calls: seq<Call>)
    requires IsRun(o, calls) && o.shut && o.waiting != []
    ensures After(o, calls).shut && After(o, calls).waiting != []
    decreases |calls|
  {
    if calls != [] {
      StuckStays(Written(o, calls[0]), calls[1..]);
    }
  }

  /**
   Clean half-close, exactly: in every run from a clean state, while the connection is open a
   shut write side has nothing waiting if and only if no message was sent after the shutdown
   that the kernel answered otherwise than with EPIPE or ECONNRESET.
   */
  lemma {:induction false} CleanHalfClose(o: Output, calls: seq<Call>)
    requires IsRun(o, calls) && (o.state != Disconnected && o.shut ==> o.waiting == [])
    ensures var p := After(o, calls);
            p.state != Disconnected && p.shut ==> (p.waiting == [] <==> !SomeStrays(o, calls))
    decreases |calls|
  {
    if calls != [] {
      var next := Written(o, calls[0]);
      if Strays(o, calls[0]) {
        StuckStays(next, calls[1..]);
      } else if o.state == Disconnected {
        ClosedStays(next, calls[1..]);
      } else {
        CleanHalfClose(next, calls[1..]);
      }
    }
  }

  lemma {:induction false} ClosedStays(o: Output, calls: seq<Call>)
    requires IsRun(o, calls) && o.state == Disconnected
    ensures After(o, calls).state == Disconnected
    decreases |calls|
  {
    if calls != [] {
      ClosedStays(Written(o, calls[0]), calls[1..]);
    }
  }

  /** A message can stray: the kernel answers a write after the shutdown with another error. */
  lemma StrayBytes(b: byte)
    ensures var calls := [BeginShutdown, ShutWrite, Send([b], WriteError(OtherErrno))];
            IsRun(OPEN, calls) && After(OPEN, calls) == Output(Disconnecting, [b], [], true)
  {
    var send := Send([b], WriteError(OtherErrno));
    var o1 := Written(OPEN, BeginShutdown);
    var o2 := Written(o1, ShutWrite);
    var last, two, calls := [send], [ShutWrite, send], [BeginShutdown, ShutWrite, send];
    assert last[1..] == [] && two[1..] == last && calls[1..] == two;
    assert o1 == Output(Disconnecting, [], [], false) && o2 == Output(Disconnecting, [], [], true);
    assert [] + [b][0..] == [b] && [] + [b][..0] == [];
    assert Written(o2, send) == Output(Disconnecting, [b], [], true);
    assert IsRun(o2, last) && After(o2, last) == Written(o2, send);
    assert IsRun(o1, two) && After(o1, two) == After(o2, last);
    assert IsRun(OPEN, calls) && After(OPEN, calls) == After(o1, two);
  }

  const OPEN := Output(Connected, [], [], false)

  /**
   A half-close asked for is never forgotten: once shutdownInLoop has run, in every
   continuation an open connection with nothing waiting has its write side shut.
   */
  lemma {:induction false} HalfCloseHappens(o: Output, calls: seq<Call>)
    requires IsRun(o, calls) && o.state == Disconnecting && (o.waiting == [] ==> o.shut)
    ensures var p := After(o, calls); p.state != Disconnected ==> (p.waiting == [] ==> p.shut)
    decreases |calls|
  {
    if calls != [] {
      var next := Written(o, calls[0]);
      if next.state == Disconnected {
        ClosedStays(next, calls[1..]);
      } else {
        HalfCloseHappens(next, calls[1..]);
      }
    }
  }

  // ---------- each call, in full ----------

  /** A writable event moves exactly what the kernel takes from the front of the waiting bytes to the wire. */
  lemma WritableMoves(o: Output, n: nat, writeComplete: bool, mark: Option<nat>)
    requires o.state != Disconnected && n <= |o.waiting| && (o.shut ==> n == 0)
    ensures var p := Written(o, Writable(Wrote(n)));
            && p.wire == o.wire + o.waiting[..n] && p.waiting == o.waiting[n..] && p.state == o.state
            && (p.shut <==> o.shut || (0 < n == |o.waiting| && o.state == Disconnecting))
            && Notices(o, Writable(Wrote(n)), writeComplete, mark) ==
               if writeComplete && 0 < n == |o.waiting| then [WriteComplete] else []
  {
  }

  /**
   A message goes to the kernel only if nothing waits; what it does not take is buffered, whole
   after another error.
   */
  lemma SendMoves(o: Output, m: seq<byte>, kernel: WriteResult)
    requires o.state != Disconnected && Callable(o, Send(m, kernel))
    ensures var p := Written(o, Send(m, kernel));
            && p.state == o.state && p.shut == o.shut
            && (o.waiting != [] ==> p.wire == o.wire && p.waiting == o.waiting + m)
            && (o.waiting == [] ==>
                  match kernel
                  case Wrote(n) => p.wire == o.wire + m[..n] && p.waiting == m[n..]
                  case WriteError(BrokenPipe) => p == o
                  case WriteError(ConnReset) => p == o
                  case WriteError(_) => p.wire == o.wire && p.waiting == m)
  {
    assert o.wire + m[..0] == o.wire && [] + m == m && m[0..] == m;
    assert kernel.Wrote? ==> [] + m[kernel.n..] == m[kernel.n..];
  }

  /** Write-complete after a message taken whole at once, high-water when the mark is reached from below. */
  lemma SendNotices(o: Output, m: seq<byte>, kernel: WriteResult, writeComplete: bool, mark: Option<nat>)
    requires o.state != Disconnected && Callable(o, Send(m, kernel))
    ensures var notices, p := Notices(o, Send(m, kernel), writeComplete, mark), Written(o, Send(m, kernel));
            && (WriteComplete in notices <==> writeComplete && o.waiting == [] && kernel == Wrote(|m|))
            && (forall n :: HighWaterMark(n) in notices <==>
                  mark.Some? && n == |p.waiting| && |o.waiting| < mark.value <= n)
  {
  }

  /** The calls that move no bytes. */
  lemma StateMoves(o: Output)
    ensures Written(o, BeginShutdown) == o.(state := if o.state == Connected then Disconnecting else o.state)
    ensures Written(o, BeginForceClose) == o.(state := if o.Live() then Disconnecting else o.state)
    ensures Written(o, Close) == o.(state := if o.Live() then Disconnected else o.state)
    ensures o.state == Disconnecting ==> Written(o, ShutWrite) == o.(shut := o.shut || o.waiting == [])
  {
  }
}
