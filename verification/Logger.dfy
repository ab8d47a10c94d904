/**
 AsyncLogging: shards filled by any thread, collected and written by one. Each public method is
 one lock section, or one part of the writer's loop that touches only its own data, so any
 sequence of calls is an interleaving.
 */
module Logger {
  import opened Bytes
  import opened AsyncLog
  import opened LogDesk
  import opened LogBook

  // ---------- the buffers are what the book says ----------

  ghost predicate Mirrors(b: FixedBuffer, mem: Memory, repr: set<object>)
    reads repr
  {
    b in mem ==> b in repr && b.data in repr && b.Valid() && b.data.Length == CAPACITY && b.Contents() == mem[b]
  }

  predicate Unaliased(b: FixedBuffer, c: FixedBuffer) {
    b != c ==> b.data != c.data
  }

  ghost predicate Real(mem: Memory, repr: set<object>)
    reads repr
  {
    && (forall b {:trigger Mirrors(b, mem, repr)} :: b in mem ==> Mirrors(b, mem, repr))
    && (forall b, c {:trigger Unaliased(b, c)} :: b in mem && c in mem ==> Unaliased(b, c))
  }

  /** The last buffer of the pool, if it has one. */
  predicate AcquiredFrom(pool: seq<FixedBuffer>, left: seq<FixedBuffer>, b: FixedBuffer) {
    if pool == [] then left == [] else left + [b] == pool
  }

  /** The last spare, if there is one, and else a buffer from the pool. */
  predicate TakenFrom(spare: seq<FixedBuffer>, spareLeft: seq<FixedBuffer>, pool: seq<FixedBuffer>,
                      poolLeft: seq<FixedBuffer>, b: FixedBuffer)
  {
    if spare == [] then spareLeft == [] && AcquiredFrom(pool, poolLeft, b)
    else spareLeft + [b] == spare && poolLeft == pool
  }

  class AsyncLogging {
    var shards: seq<Slots>
    var pool: seq<FixedBuffer>         // globalPool_
    var spare: seq<FixedBuffer>        // the writer's spare buffers
    var toWrite: seq<FixedBuffer>      // buffersToWrite
    ghost var origin: seq<nat>         // the shard each of them came from
    ghost var mem: Memory
    ghost var home: Homes
    ghost var repr: set<object>
    ghost var log: seq<Entry>
    ghost var appended: seq<Text>      // per shard, everything kept of the lines appended
    ghost var mark: seq<nat>           // per shard, how much of that has been collected

    ghost function D(): Desk
      reads this
    {
      Desk(shards, pool, spare, toWrite, home)
    }

    ghost function B(): Book
      reads this
    {
      Book(D(), origin, mem, Handled(log), appended, mark)
    }

    ghost predicate Sane()
      reads this, repr
    {
      this !in repr && Real(mem, repr) && Placed(D()) && home.Keys == mem.Keys
    }

    ghost predicate Valid()
      reads this, repr
    {
      this !in repr && Real(mem, repr) && Balanced(B()) && |pool| <= POOL_MAX && |spare| <= SPARE_MAX
    }

    /** What shard i holds. */
    ghost function Holds(i: nat): Shard
      requires Balanced(B()) && i < |shards|
      reads this
    {
      assert SoundAt(B(), i);
      View(mem, shards[i])
    }

    // ---------- one buffer ----------

    method NewBuffer() returns (b: FixedBuffer)
      requires this !in repr && Real(mem, repr)
      modifies this`mem, this`repr
      ensures this !in repr && Real(mem, repr) && fresh(b) && fresh(b.data) && b !in old(mem)
      ensures mem == old(mem)[b := []] && repr == old(repr) + {b, b.data}
    {
      b := new FixedBuffer(CAPACITY);
      ghost var m, r := mem, repr;
      mem := mem[b := []];
      repr := repr + {b, b.data};
      forall c | c in mem ensures Mirrors(c, mem, repr) {
        assert c != b ==> old(Mirrors(c, m, r));
      }
      forall c, d | c in mem && d in mem ensures Unaliased(c, d) {
        assert c != b ==> old(Mirrors(c, m, r));
        assert d != b ==> old(Mirrors(d, m, r));
        assert c != b && d != b ==> Unaliased(c, d);
      }
    }

    method ResetBuffer(b: FixedBuffer)
      requires Real(mem, repr) && b in mem && this !in repr
      modifies this`mem, repr
      ensures Real(mem, repr) && mem == old(mem)[b := []]
    {
      assert Mirrors(b, mem, repr);
      ghost var m := mem;
      b.Reset();
      mem := mem[b := []];
      forall c | c in mem ensures Mirrors(c, mem, repr) {
        assert old(Mirrors(c, m, repr));
      }
      forall c, d | c in mem && d in mem ensures Unaliased(c, d) {
        assert Unaliased(c, d);
      }
    }

    method FillBuffer(b: FixedBuffer, text: Text)
      requires Real(mem, repr) && b in mem && this !in repr
      modifies this`mem, repr
      ensures Real(mem, repr) && |old(mem)[b]| <= CAPACITY && mem == old(mem)[b := Filled(old(mem)[b], text, CAPACITY)]
    {
      assert Mirrors(b, mem, repr);
      ghost var m := mem;
      b.Append(text);
      mem := mem[b := b.Contents()];
      forall c | c in mem ensures Mirrors(c, mem, repr) {
        assert old(Mirrors(c, m, repr)) && Unaliased(b, c);
      }
      forall c, d | c in mem && d in mem ensures Unaliased(c, d) {
        assert Unaliased(c, d);
      }
    }

    /** A buffer from the pool, reset, or a new one. */
    method AcquireBuffer() returns (b: FixedBuffer)
      requires Sane()
      modifies this`pool, this`mem, this`home, this`repr, repr
      ensures Sane() && fresh(repr - old(repr)) && AcquiredFrom(old(pool), pool, b)
      ensures home == old(home)[b := InHand] && mem == old(mem)[b := []]
      ensures if old(pool) != [] then b in old(home) && old(home)[b] == InPool else fresh(b) && b !in old(home)
    {
      if pool != [] {
        b := pool[|pool| - 1];
        PoolPopped(D());
        pool := pool[..|pool| - 1];
        ResetBuffer(b);
      } else {
        b := NewBuffer();
        HandMoved(D(), b, InHand);
      }
      home := home[b := InHand];
    }

    /** Resets the buffer and puts it into the pool, or frees it when the pool is full. */
    method RecycleBuffer(b: FixedBuffer)
      requires Sane() && |pool| <= POOL_MAX && b in mem && home[b] == InHand
      modifies this`pool, this`mem, this`home, repr
      ensures Sane() && |pool| <= POOL_MAX && mem == old(mem)[b := []]
      ensures home == old(home)[b := if |old(pool)| < 64 then InPool else Freed]
      ensures pool == if |old(pool)| < 64 then old(pool) + [b] else old(pool)
    {
      ResetBuffer(b);
      if |pool| < POOL_MAX {
        PoolPushed(D(), b);
        pool := pool + [b];
        home := home[b := InPool];
      } else {
        HandMoved(D(), b, Freed);
        home := home[b := Freed];
      }
    }

    /** A buffer from the spares, reset, or else from the pool. */
    method TakeBuffer() returns (b: FixedBuffer)
      requires Sane()
      modifies this`spare, this`pool, this`mem, this`home, this`repr, repr
      ensures Sane() && fresh(repr - old(repr))
      ensures TakenFrom(old(spare), spare, old(pool), pool, b)
      ensures home == old(home)[b := InHand] && mem == old(mem)[b := []]
      ensures b in old(home) ==> old(home)[b] == InPool || old(home)[b] == InSpare
    {
      if spare != [] {
        b := spare[|spare| - 1];
        SparePopped(D());
        spare := spare[..|spare| - 1];
        ResetBuffer(b);
        home := home[b := InHand];
      } else {
        b := AcquireBuffer();
      }
    }

    /** A buffer for a shard that has no next one: the writer looks among its spares first. */
    method AnotherBuffer(writer: bool) returns (b: FixedBuffer)
      requires Sane()
      modifies this`spare, this`pool, this`mem, this`home, this`repr, repr
      ensures Sane() && fresh(repr - old(repr))
      ensures if writer then TakenFrom(old(spare), spare, old(pool), pool, b)
              else spare == old(spare) && AcquiredFrom(old(pool), pool, b)
      ensures home == old(home)[b := InHand] && mem == old(mem)[b := []]
      ensures b in old(home) ==> old(home)[b] == InPool || old(home)[b] == InSpare
    {
      if writer {
        b := TakeBuffer();
      } else {
        b := AcquireBuffer();
      }
    }

    // ---------- one shard ----------

    method RotateToNext(i: nat)
      requires Valid() && i < |shards| && shards[i].next != null
      modifies this`shards
      ensures Valid() && |shards| == |old(shards)| && shards[i].current == old(shards)[i].next
      ensures Holds(i) == RotatedShard(old(Holds(i)))
      ensures Alike(old(B()), B(), i) && Pending() == old(Pending())
    {
      RotatedToNext(B(), i);
      ghost var book := NextBook(B(), i);
      var b: FixedBuffer := shards[i].next;
      shards := shards[i := RotatedSlots(shards[i], b)];
      assert B() == book;
    }

    method RotateToOther(i: nat, writer: bool)
      requires Valid() && i < |shards| && shards[i].next == null
      modifies this`shards, this`pool, this`spare, this`mem, this`home, this`repr, repr
      ensures Valid() && fresh(repr - old(repr)) && |shards| == |old(shards)|
      ensures Holds(i) == RotatedShard(old(Holds(i)))
      ensures Alike(old(B()), B(), i) && Pending() == old(Pending())
      ensures shards[i].current != null
      ensures if writer then TakenFrom(old(spare), spare, old(pool), pool, shards[i].current)
              else spare == old(spare) && AcquiredFrom(old(pool), pool, shards[i].current)
    {
      ghost var book := B();
      var b := AnotherBuffer(writer);
      RotatedToOther(book, D(), i, b);
      book := OtherBook(book, D(), i, b);
      home := home[b := AtShard(i)];
      shards := shards[i := RotatedSlots(shards[i], b)];
      assert B() == book;
    }

    /** The current buffer joins the full ones; the next one, or another one that is empty, takes its place. */
    method Rotate(i: nat, writer: bool)
      requires Valid() && i < |shards|
      modifies this`shards, this`pool, this`spare, this`mem, this`home, this`repr, repr
      ensures Valid() && fresh(repr - old(repr)) && |shards| == |old(shards)|
      ensures Holds(i) == RotatedShard(old(Holds(i)))
      ensures Alike(old(B()), B(), i) && Pending() == old(Pending())
      ensures old(shards)[i].next != null ==>
                spare == old(spare) && pool == old(pool) && shards[i].current == old(shards)[i].next
      ensures old(shards)[i].next == null ==>
                && shards[i].current != null
                && if writer then TakenFrom(old(spare), spare, old(pool), pool, shards[i].current)
                   else spare == old(spare) && AcquiredFrom(old(pool), pool, shards[i].current)
    {
      if shards[i].next != null {
        RotateToNext(i);
      } else {
        RotateToOther(i, writer);
      }
    }

    /** The line goes into the shard's current buffer, as far as it fits. */
    method Fill(i: nat, line: Text)
      requires Valid() && i < |shards|
      modifies this`mem, this`appended, repr
      ensures Valid() && |old(Holds(i)).current| <= CAPACITY
      ensures appended == old(appended)[i := old(appended)[i] + Fitting(old(Holds(i)).current, line)]
      ensures Alike(old(B()), B(), i) && Pending() == old(Pending())
    {
      FilledIsBalanced(B(), i, line);
      ghost var book := FilledBook(B(), i, line);
      var b: FixedBuffer := shards[i].current;
      FillBuffer(b, line);
      appended := book.appended;
      assert B() == book;
    }

    /** avail() >= static_cast<int>(logline.size()), of the shard's current buffer. */
    method Fits(i: nat, line: Text) returns (fits: bool)
      requires Valid() && i < |shards|
      ensures |Holds(i).current| <= CAPACITY && (fits <==> CAPACITY - |Holds(i).current| >= WrapInt32(|line|))
    {
      assert SoundAt(B(), i);
      var b: FixedBuffer := shards[i].current;
      assert Mirrors(b, mem, repr);
      fits := b.Avail() >= WrapInt32(|line|);
    }

    /** AsyncLogging::append: into the current buffer if the line's size, as an int, fits; else into another one. */
    method Append(i: nat, line: Text) returns (needWakeup: bool)
      requires Valid() && i < |shards|
      modifies this`shards, this`pool, this`spare, this`mem, this`home, this`appended, this`repr, repr
      ensures Valid() && fresh(repr - old(repr)) && |shards| == |old(shards)|
      ensures appended == old(appended)[i := old(appended)[i] + Kept(old(Holds(i)).current, line)]
      ensures needWakeup <==> 4_000_000 - |old(Holds(i)).current| < WrapInt32(|line|)
      ensures Alike(old(B()), B(), i) && Pending() == old(Pending())
      ensures spare == old(spare)
    {
      var fits := Fits(i, line);
      KeptIsFitting(Holds(i).current, line);
      ghost var first := B();
      AlikeItself(first, i);
      if !fits {
        Rotate(i, false);
      }
      ghost var second := B();
      Fill(i, line);
      AlikeJoin(first, second, B(), i);
      return !fits;
    }

    method HasData(i: nat) returns (some: bool)
      requires Valid() && i < |shards|
      ensures some <==> Holds(i).current != []
    {
      assert SoundAt(B(), i);
      var b: FixedBuffer := shards[i].current;
      assert Mirrors(b, mem, repr);
      some := b.writePos > 0;
    }

    /** A shard without a next buffer gets one. */
    method Replenish(i: nat)
      requires Valid() && i < |shards| && shards[i].next == null
      modifies this`shards, this`pool, this`spare, this`mem, this`home, this`repr, repr
      ensures Valid() && fresh(repr - old(repr)) && |shards| == |old(shards)| && shards[i].next != null
      ensures Holds(i) == old(Holds(i)).(next := Some([]))
      ensures Alike(old(B()), B(), i) && Pending() == old(Pending())
      ensures TakenFrom(old(spare), spare, old(pool), pool, shards[i].next)
    {
      ghost var book := B();
      var b := TakeBuffer();
      Replenished(book, D(), i, b);
      book := ReplenishedBook(book, D(), i, b);
      home := home[b := AtShard(i)];
      shards := shards[i := shards[i].(next := b)];
      assert B() == book;
    }

    method MoveBuffers(i: nat)
      requires i < |shards| && |appended| == |mark| == |shards|
      modifies this`shards, this`toWrite, this`origin, this`home, this`mark
      ensures B() == HandedBook(old(B()), i)
    {
      ghost var book := HandedBook(B(), i);
      toWrite := toWrite + shards[i].buffers;
      shards := shards[i := shards[i].(buffers := [])];
      home, origin, mark := book.desk.home, book.origin, book.mark;
    }

    /** The shard's full buffers move to the end of the writer's list. */
    method HandOver(i: nat)
      requires Valid() && i < |shards| && Holds(i).current == []
      modifies this`shards, this`toWrite, this`origin, this`home, this`mark
      ensures Valid() && |shards| == |old(shards)|
      ensures Holds(i) == old(Holds(i)).(buffers := []) && mark == old(mark)[i := |appended[i]|]
      ensures Alike(old(B()), B(), i)
    {
      HandedOver(B(), i);
      MoveBuffers(i);
    }

    /**
     The start of `collect` for one shard: a current buffer with data joins the full ones, and both
     buffers are there.
     */
    method PrepareShard(i: nat)
      requires Valid() && i < |shards|
      modifies this`shards, this`pool, this`spare, this`mem, this`home, this`repr, repr
      ensures Valid() && fresh(repr - old(repr)) && |shards| == |old(shards)|
      ensures Holds(i).current == [] && Holds(i).next == Some([])
      ensures Alike(old(B()), B(), i) && Pending() == old(Pending())
    {
      ghost var first := B();
      var some := HasData(i);
      AlikeItself(first, i);
      if some {
        Rotate(i, true);
      }
      ghost var second := B();
      if shards[i].next == null {
        Replenish(i);
        AlikeJoin(first, second, B(), i);
      }
      assert SoundAt(B(), i);
    }

    /** The body of `collect` for one shard: everything it holds goes to the writer, and both its buffers are ready. */
    method CollectShard(i: nat)
      requires Valid() && i < |shards|
      modifies this`shards, this`pool, this`spare, this`toWrite, this`origin, this`mem, this`home, this`mark,
               this`repr, repr
      ensures Valid() && fresh(repr - old(repr)) && |shards| == |old(shards)|
      ensures mark == old(mark)[i := |appended[i]|] && Holds(i) == Shard([], Some([]), [])
      ensures ChunkBytes(Pending(), i) == old(ChunkBytes(Pending(), i)) + old(Holds(i)).Held()
      ensures Alike(old(B()), B(), i)
    {
      ghost var first := B();
      PrepareShard(i);
      ghost var second := B();
      HandOver(i);
      AlikeJoin(first, second, B(), i);
      CollectedBytes(first, B(), i);
    }

    // ---------- the writer ----------

    ghost function Pending(): seq<Chunk>
      requires Balanced(B())
      reads this
    {
      Waiting(B())
    }

    /** output.append of the first n buffers, with what they hold. */
    method WriteBuffers(n: nat)
      requires this !in repr && Real(mem, repr) && Known(mem, toWrite) && |origin| == |toWrite| && n <= |toWrite|
      modifies this`log
      ensures log == old(log) + WroteAll(Chunks(mem, toWrite, origin)[..n])
    {
      ghost var cs := Chunks(mem, toWrite, origin);
      var k := 0;
      while k < n
        invariant 0 <= k <= n && log == old(log) + WroteAll(cs[..k]) && Real(mem, repr)
      {
        assert Mirrors(toWrite[k], mem, repr);
        var text := toWrite[k].data[..toWrite[k].writePos];
        WroteOneMore(cs, k);
        Assoc(old(log), WroteAll(cs[..k]), [Wrote(cs[k])]);
        log := log + [Wrote(Chunk(origin[k], text))];
        k := k + 1;
      }
    }

    /** The first n buffers, which were written, become spares up to 32 of them, as they are; the others are freed. */
    method Refill(n: nat)
      requires Sane() && n <= |toWrite| && |spare| <= SPARE_MAX
      modifies this`spare, this`toWrite, this`origin, this`home
      ensures Sane() && |spare| <= SPARE_MAX && toWrite == [] && origin == []
      ensures spare == old(spare) + old(toWrite)[..if n <= 32 - |old(spare)| then n else 32 - |old(spare)|]
    {
      var toMove := 0;
      if |spare| < SPARE_MAX {
        var needed := SPARE_MAX - |spare|;
        toMove := if needed <= n then needed else n;
      }
      Refilled(D(), toMove);
      home := RefillHomes(home, toWrite, toMove);
      spare := spare + toWrite[..toMove];
      toWrite, origin := [], [];
    }

    /** A notice, the first two buffers, and the rest dropped. */
    method LogFirstTwo(ghost cs: seq<Chunk>)
      requires this !in repr && Real(mem, repr) && Known(mem, toWrite) && |origin| == |toWrite| && |toWrite| > 25
      requires cs == Chunks(mem, toWrite, origin)
      modifies this`log
      ensures log == old(log) + ([Notice] + WroteAll(cs[..2]) + DroppedAll(cs[2..]))
    {
      ghost var before := log;
      log := log + [Notice];
      WriteBuffers(2);
      ghost var dropped := DroppedAll(cs[2..]);
      Assoc(before, [Notice], WroteAll(cs[..2]));
      Assoc(before, [Notice] + WroteAll(cs[..2]), dropped);
      log := log + dropped;
    }

    /** The calls of one round: a notice and two buffers if there are too many, else all of them. */
    method LogRound(ghost cs: seq<Chunk>) returns (n: nat)
      requires this !in repr && Real(mem, repr) && Known(mem, toWrite) && |origin| == |toWrite|
      requires cs == Chunks(mem, toWrite, origin)
      modifies this`log
      ensures n <= |toWrite| && log == old(log) + RoundOf(cs)
    {
      n := |toWrite|;
      if n > DROP_ABOVE {
        n := 2;
        LogFirstTwo(cs);
      } else {
        WriteBuffers(n);
        Split(cs, n);
      }
    }

    /** Once the log has everything of the book's account that was waiting, the buffers can go. */
    method Clear(n: nat, ghost book: Book)
      requires Balanced(book) && B() == book.(handled := book.handled + Waiting(book))
      requires this !in repr && Real(mem, repr) && n <= |toWrite| && |pool| <= POOL_MAX && |spare| <= SPARE_MAX
      modifies this`spare, this`toWrite, this`origin, this`home
      ensures Valid() && toWrite == [] && Alike(book, B(), -1)
    {
      Refill(n);
      WrittenInPlace(book, D());
      assert B() == WrittenBook(book, D(), mem);
    }

    /** One round of the writer after collecting. */
    method WriteRound()
      requires Valid()
      modifies this`log, this`spare, this`toWrite, this`origin, this`home
      ensures Valid() && toWrite == [] && log == old(log) + RoundOf(old(Pending())) && Alike(old(B()), B(), -1)
    {
      if toWrite != [] {
        ghost var book := B();
        RoundHandled(log, Pending());
        var n := LogRound(Pending());
        Clear(n, book);
      } else {
        assert Pending() == [] && RoundOf([]) == [];
        AlikeItself(B(), -1);
      }
    }

    /** Resets the buffers and puts them into the pool, as far as there is room. */
    method RecycleAll(bs: seq<FixedBuffer>)
      requires Sane() && |pool| <= POOL_MAX && Homed(bs, home, InHand)
      modifies this`pool, this`mem, this`home, repr
      ensures Sane() && |pool| <= POOL_MAX && Steady(old(mem), old(home), mem)
    {
      var k := 0;
      ghost var m, h := mem, home;
      SteadyStart(m, h);
      assert bs[0..] == bs;
      while k < |bs|
        invariant 0 <= k <= |bs| && Sane() && |pool| <= POOL_MAX
        invariant Homed(bs[k..], home, InHand) && SteadyOn(m, h, mem, home)
      {
        assert bs[k..][0] == bs[k] && bs[k..][1..] == bs[k + 1..];
        ghost var to := if |pool| < POOL_MAX then InPool else Freed;
        FirstInHand(bs[k..], home, to);
        SteadyGoesOn(m, h, mem, home, bs[k], to);
        RecycleBuffer(bs[k]);
        k := k + 1;
      }
    }

    /** The writer's buffers, spare and written, are recycled. */
    method RecycleWriter()
      requires Sane() && |pool| <= POOL_MAX
      modifies this`spare, this`toWrite, this`origin, this`pool, this`mem, this`home, repr
      ensures Sane() && |pool| <= POOL_MAX && spare == [] && toWrite == [] && origin == []
      ensures Steady(old(mem), TakenHomes(old(home), old(spare) + old(toWrite)), mem)
    {
      AllTaken(D());
      var bs := spare + toWrite;
      home := TakenHomes(home, bs);
      spare, toWrite, origin := [], [], [];
      RecycleAll(bs);
    }

    /** After the last collect everything is written, whatever its amount, and the writer's buffers are recycled. */
    method WriteLast()
      requires Valid()
      modifies this`log, this`spare, this`toWrite, this`origin, this`pool, this`mem, this`home, repr
      ensures Valid() && toWrite == [] && log == old(log) + WroteAll(old(Pending())) && Alike(old(B()), B(), -1)
    {
      ghost var book := B();
      WriteBuffers(|toWrite|);
      WroteHandled(old(log), Waiting(book));
      RecycleWriter();
      RecycledIsBalanced(book, D(), mem);
      assert B() == WrittenBook(book, D(), mem);
    }

    // ---------- starting ----------

    method NewPair() returns (b: FixedBuffer, c: FixedBuffer)
      requires this !in repr && Real(mem, repr)
      modifies this`mem, this`repr
      ensures this !in repr && Real(mem, repr) && b != c && b !in old(mem) && c !in old(mem)
      ensures mem == old(mem)[b := []][c := []] && fresh(repr - old(repr))
    {
      b := NewBuffer();
      c := NewBuffer();
    }

    method PlaceShard(b: FixedBuffer, c: FixedBuffer, ghost book: Book)
      requires B() == book.(mem := book.mem[b := []][c := []])
      modifies this`shards, this`home, this`appended, this`mark
      ensures B() == OpenedBook(book, b, c)
    {
      ghost var next := OpenedBook(book, b, c);
      shards := shards + [Slots(b, c, [])];
      home, appended, mark := next.desk.home, next.appended, next.mark;
    }

    method OpenShard()
      requires Valid() && log == [] && toWrite == []
      modifies this`shards, this`mem, this`home, this`repr, this`appended, this`mark
      ensures Valid() && fresh(repr - old(repr)) && |shards| == |old(shards)| + 1
      ensures appended == old(appended) + [[]] && mark == old(mark) + [0]
    {
      ghost var book := B();
      var b, c := NewPair();
      OpenedIsBalanced(book, b, c);
      PlaceShard(b, c, book);
    }

    method OpenShards(n: nat)
      requires Valid() && shards == [] && log == [] && toWrite == []
      modifies this`shards, this`mem, this`home, this`repr, this`appended, this`mark
      ensures Valid() && fresh(repr - old(repr)) && |shards| == n
      ensures forall i :: 0 <= i < n ==> appended[i] == [] && mark[i] == 0
    {
      var k := 0;
      while k < n
        invariant 0 <= k <= n && Valid() && fresh(repr - old(repr)) && |shards| == k
        invariant forall i :: 0 <= i < k ==> appended[i] == [] && mark[i] == 0
      {
        OpenShard();
        k := k + 1;
      }
    }

    method StockPool()
      requires Valid() && |pool| < POOL_MAX
      modifies this`pool, this`mem, this`home, this`repr
      ensures Valid() && fresh(repr - old(repr)) && |pool| == |old(pool)| + 1
    {
      ghost var book := B();
      var b := NewBuffer();
      StockedPool(book, b);
      pool := pool + [b];
      home := home[b := InPool];
      assert B() == book.(desk := D(), mem := mem);
    }

    method StockSpare()
      requires Valid() && |spare| < SPARE_MAX
      modifies this`spare, this`mem, this`home, this`repr
      ensures Valid() && fresh(repr - old(repr)) && |spare| == |old(spare)| + 1
    {
      ghost var book := B();
      var b := NewBuffer();
      StockedSpare(book, b);
      spare := spare + [b];
      home := home[b := InSpare];
      assert B() == book.(desk := D(), mem := mem);
    }

    method Stock(n: nat)
      requires Valid() && pool == spare == [] && n <= SPARE_MAX
      modifies this`pool, this`spare, this`mem, this`home, this`repr
      ensures Valid() && fresh(repr - old(repr)) && |pool| == |spare| == n
    {
      var k := 0;
      while k < n
        invariant 0 <= k <= n && Valid() && fresh(repr - old(repr)) && |pool| == |spare| == k
      {
        StockPool();
        StockSpare();
        k := k + 1;
      }
    }

    /**
     Two buffers for each shard, 16 in the pool and 16 spares. The source makes the spares when
     the writer starts; nothing but the writer uses them.
     */
    constructor (shardCount: nat)
      ensures Valid() && fresh(repr) && |shards| == shardCount && |pool| == |spare| == 16 && log == [] && toWrite == []
      ensures forall i :: 0 <= i < shardCount ==> appended[i] == [] && mark[i] == 0
    {
      shards, pool, spare, toWrite := [], [], [], [];
      origin, mem, home, repr, log, appended, mark := [], map[], map[], {}, [], [], [];
      new;
      NothingIsBalanced();
      assert B() == NOTHING;
      OpenShards(shardCount);
      Stock(16);
    }
  }

  // ---------- every run ----------

  datatype Op = AppendLine(shard: nat, line: Text) | Collect(shard: nat) | Round

  function Truncated(line: Text): Text {
    line[..if |line| <= CAPACITY then |line| else CAPACITY]
  }

  /** The lines appended to a shard, each truncated to one buffer. */
  function LinesOf(ops: seq<Op>, shard: nat): Text {
    if ops == [] then []
    else
      LinesOf(ops[..|ops| - 1], shard)
      + match ops[|ops| - 1]
        case AppendLine(i, line) => if i == shard then Truncated(line) else []
        case _ => []
  }

  /** Those of them that were there when the shard was last collected. */
  function CollectedOf(ops: seq<Op>, shard: nat): Text {
    if ops == [] then []
    else if ops[|ops| - 1] == Collect(shard) then LinesOf(ops, shard)
    else CollectedOf(ops[..|ops| - 1], shard)
  }

  predicate OfPlainSize(ops: seq<Op>) {
    forall i :: 0 <= i < |ops| && ops[i].AppendLine? ==> |ops[i].line| < 0x8000_0000
  }

  lemma {:induction false} LinesGrow(ops: seq<Op>, more: seq<Op>, shard: nat)
    ensures LinesOf(ops, shard) <= LinesOf(ops + more, shard)
    decreases |more|
  {
    if more == [] {
      assert ops + more == ops;
    } else {
      LinesGrow(ops, more[..|more| - 1], shard);
      assert (ops + more)[..|ops + more| - 1] == ops + more[..|more| - 1];
    }
  }

  lemma {:induction false} CollectedIsPrefix(ops: seq<Op>, shard: nat)
    ensures CollectedOf(ops, shard) <= LinesOf(ops, shard)
  {
    if ops != [] && ops[|ops| - 1] != Collect(shard) {
      CollectedIsPrefix(ops[..|ops| - 1], shard);
    }
  }

  /**
   A last pass that collects a shard once, wherever appends fall in it: everything that was
   appended before the pass is collected, and of what is appended during it a part, in order.
   */
  lemma {:induction false} FinalPass(before: seq<Op>, pass: seq<Op>, shard: nat)
    requires Collect(shard) in pass
    ensures LinesOf(before, shard) <= CollectedOf(before + pass, shard) <= LinesOf(before + pass, shard)
    decreases |pass|
  {
    var all, n := before + pass, |pass| - 1;
    CollectedIsPrefix(all, shard);
    assert all != [] && all[|all| - 1] == pass[n];
    if pass[n] == Collect(shard) {
      LinesGrow(before, pass, shard);
      assert CollectedOf(all, shard) == LinesOf(all, shard);
    } else {
      assert all[..|all| - 1] == before + pass[..n];
      FinalPass(before, pass[..n], shard);
      assert CollectedOf(all, shard) == CollectedOf(before + pass[..n], shard);
    }
  }

  predicate HasDrops(log: seq<Entry>) {
    exists e :: e in log && e.Dropped?
  }

  lemma WroteHasNoDrops(log: seq<Entry>, cs: seq<Chunk>)
    ensures HasDrops(log + WroteAll(cs)) <==> HasDrops(log)
  {
    if HasDrops(log) {
      var e :| e in log && e.Dropped?;
      assert e in log + WroteAll(cs);
    }
  }

  lemma RoundDrops(log: seq<Entry>, cs: seq<Chunk>)
    ensures HasDrops(log + RoundOf(cs)) <==> HasDrops(log) || |cs| > DROP_ABOVE
  {
    if |cs| > DROP_ABOVE {
      var dropped := DroppedAll(cs[2..]);
      assert dropped[0] in log + ([Notice] + WroteAll(cs[..2]) + dropped);
    } else {
      WroteHasNoDrops(log, cs);
    }
  }

  /** What the operations so far have left in the account of shard i. */
  predicate RecordedAt(ops: seq<Op>, appended: seq<Text>, mark: seq<nat>, i: nat) {
    i < |appended| && i < |mark| ==> appended[i] == LinesOf(ops, i) && mark[i] == |CollectedOf(ops, i)|
  }

  ghost predicate Recorded(ops: seq<Op>, appended: seq<Text>, mark: seq<nat>) {
    forall i {:trigger RecordedAt(ops, appended, mark, i)} :: RecordedAt(ops, appended, mark, i)
  }

  lemma NothingRecorded(appended: seq<Text>, mark: seq<nat>)
    requires |appended| == |mark| && forall i :: 0 <= i < |appended| ==> appended[i] == [] && mark[i] == 0
    ensures Recorded([], appended, mark)
  {
    forall i: nat ensures RecordedAt([], appended, mark, i) {
    }
  }

  lemma AppendRecorded(ops: seq<Op>, appended: seq<Text>, mark: seq<nat>, i: nat, line: Text)
    requires Recorded(ops, appended, mark) && i < |appended|
    ensures Recorded(ops + [AppendLine(i, line)], appended[i := appended[i] + Truncated(line)], mark)
  {
    var ops', appended' := ops + [AppendLine(i, line)], appended[i := appended[i] + Truncated(line)];
    assert ops'[..|ops|] == ops;
    forall k: nat ensures RecordedAt(ops', appended', mark, k) {
      assert RecordedAt(ops, appended, mark, k);
      assert LinesOf(ops, k) + [] == LinesOf(ops, k);
    }
  }

  lemma CollectRecorded(ops: seq<Op>, appended: seq<Text>, mark: seq<nat>, i: nat)
    requires Recorded(ops, appended, mark) && i < |appended| == |mark|
    ensures Recorded(ops + [Collect(i)], appended, mark[i := |appended[i]|])
  {
    var ops', mark' := ops + [Collect(i)], mark[i := |appended[i]|];
    assert ops'[..|ops|] == ops;
    forall k: nat ensures RecordedAt(ops', appended, mark', k) {
      assert RecordedAt(ops, appended, mark, k);
      assert LinesOf(ops, k) + [] == LinesOf(ops, k);
    }
  }

  lemma RoundRecorded(ops: seq<Op>, appended: seq<Text>, mark: seq<nat>)
    requires Recorded(ops, appended, mark)
    ensures Recorded(ops + [Round], appended, mark)
  {
    var ops' := ops + [Round];
    assert ops'[..|ops|] == ops;
    forall k: nat ensures RecordedAt(ops', appended, mark, k) {
      assert RecordedAt(ops, appended, mark, k);
      assert LinesOf(ops, k) + [] == LinesOf(ops, k);
    }
  }

  /** One operation; what it adds to the record does not depend on the buffers, for a line below 2 GiB. */
  method Operate(logger: AsyncLogging, op: Op, ghost ops: seq<Op>) returns (overrun: bool)
    requires logger.Valid() && (!op.Round? ==> op.shard < |logger.shards|)
    modifies logger, logger.repr
    ensures logger.Valid() && fresh(logger.repr - old(logger.repr)) && |logger.shards| == |old(logger.shards)|
    ensures Recorded(ops, old(logger.appended), old(logger.mark)) && (op.AppendLine? ==> |op.line| < 0x8000_0000) ==>
              Recorded(ops + [op], logger.appended, logger.mark)
    ensures HasDrops(logger.log) <==> HasDrops(old(logger.log)) || overrun
  {
    overrun := false;
    ghost var appended, mark := logger.appended, logger.mark;
    match op {
      case AppendLine(i, line) =>
        assert SoundAt(logger.B(), i);
        KeptExactly(logger.Holds(i).current, line);
        var _ := logger.Append(i, line);
        if Recorded(ops, appended, mark) {
          AppendRecorded(ops, appended, mark, i, line);
        }
      case Collect(i) =>
        logger.CollectShard(i);
        if Recorded(ops, appended, mark) {
          CollectRecorded(ops, appended, mark, i);
        }
      case Round =>
        overrun := |logger.toWrite| > DROP_ABOVE;
        RoundDrops(logger.log, logger.Pending());
        logger.WriteRound();
        if Recorded(ops, appended, mark) {
          RoundRecorded(ops, appended, mark);
        }
    }
  }

  /** Per shard, exactly the bytes up to the mark are dealt with once nothing waits. */
  lemma DealtWith(b: Book, i: nat)
    requires Balanced(b) && b.desk.toWrite == [] && i < |b.desk.shards|
    ensures b.mark[i] <= |b.appended[i]| && ChunkBytes(b.handled, i) == b.appended[i][..b.mark[i]]
  {
    assert SoundAt(b, i);
    assert ChunkBytes(b.handled, i) + [] == ChunkBytes(b.handled, i);
  }

  lemma RecordedPrefix(ops: seq<Op>, appended: seq<Text>, mark: seq<nat>, i: nat)
    requires Recorded(ops, appended, mark) && i < |appended| == |mark| && mark[i] <= |appended[i]|
    ensures appended[i] == LinesOf(ops, i) && appended[i][..mark[i]] == CollectedOf(ops, i)
  {
    assert RecordedAt(ops, appended, mark, i);
    CollectedIsPrefix(ops, i);
  }

  /**
   Any interleaving of appends, collects and rounds, the last pass of collects among them, and
   then the last write. Per shard, the writer has dealt with exactly the lines that were there
   when the shard was last collected, in order, each truncated to one buffer. Buffers were
   dropped exactly if some round had more than 25 of them; if not, all of this was written.
   */
  method RunAndStop(shardCount: nat, ops: seq<Op>) returns (logger: AsyncLogging, overrun: bool)
    requires forall i :: 0 <= i < |ops| && !ops[i].Round? ==> ops[i].shard < shardCount
    ensures logger.Valid() && |logger.shards| == shardCount
    ensures forall i :: 0 <= i < shardCount ==>
              logger.mark[i] <= |logger.appended[i]|
              && ChunkBytes(Handled(logger.log), i) == logger.appended[i][..logger.mark[i]]
    ensures OfPlainSize(ops) ==> forall i :: 0 <= i < shardCount ==>
              logger.appended[i] == LinesOf(ops, i) && ChunkBytes(Handled(logger.log), i) == CollectedOf(ops, i)
    ensures overrun <==> HasDrops(logger.log)
    ensures !overrun ==> Written(logger.log) == Handled(logger.log)
  {
    logger := new AsyncLogging(shardCount);
    NothingRecorded(logger.appended, logger.mark);
    overrun := RunAll(logger, ops);
    ghost var before, cs := logger.log, logger.Pending();
    logger.WriteLast();
    WroteHasNoDrops(before, cs);
    if !overrun {
      NoDropsWritesAll(logger.log);
    }
    forall i | 0 <= i < shardCount
      ensures logger.mark[i] <= |logger.appended[i]|
              && ChunkBytes(Handled(logger.log), i) == logger.appended[i][..logger.mark[i]]
    {
      DealtWith(logger.B(), i);
    }
    if OfPlainSize(ops) {
      forall i | 0 <= i < shardCount
        ensures logger.appended[i] == LinesOf(ops, i) && logger.appended[i][..logger.mark[i]] == CollectedOf(ops, i)
      {
        RecordedPrefix(ops, logger.appended, logger.mark, i);
      }
    }
  }

  method RunAll(logger: AsyncLogging, ops: seq<Op>) returns (overrun: bool)
    requires logger.Valid() && Recorded([], logger.appended, logger.mark) && logger.log == []
    requires forall i :: 0 <= i < |ops| && !ops[i].Round? ==> ops[i].shard < |logger.shards|
    modifies logger, logger.repr
    ensures logger.Valid() && fresh(logger.repr - old(logger.repr)) && |logger.shards| == |old(logger.shards)|
    ensures OfPlainSize(ops) ==> Recorded(ops, logger.appended, logger.mark)
    ensures overrun <==> HasDrops(logger.log)
  {
    overrun := false;
    var n := 0;
    while n < |ops|
      invariant 0 <= n <= |ops| && logger.Valid() && fresh(logger.repr - old(logger.repr))
                && |logger.shards| == |old(logger.shards)|
      invariant OfPlainSize(ops) ==> Recorded(ops[..n], logger.appended, logger.mark)
      invariant overrun <==> HasDrops(logger.log)
    {
      var more := Operate(logger, ops[n], ops[..n]);
      overrun := overrun || more;
      assert ops[..n + 1] == ops[..n] + [ops[n]];
      n := n + 1;
    }
    assert ops[..n] == ops;
  }
}
