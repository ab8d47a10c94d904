/**
 What the pointers of AsyncLogging stand for, and the account of every byte: for each shard,
 what the writer has dealt with, what it has still to write and what the shard holds make up
 what was appended, in order.
 */
module LogBook {
  import opened Bytes
  import opened AsyncLog
  import opened LogDesk

  predicate Known(mem: Memory, bs: seq<FixedBuffer>) {
    forall k :: 0 <= k < |bs| ==> bs[k] in mem
  }

  function Texts(mem: Memory, bs: seq<FixedBuffer>): (r: seq<Text>)
    requires Known(mem, bs)
    ensures |r| == |bs| && forall k :: 0 <= k < |r| ==> r[k] == mem[bs[k]]
  {
    seq(|bs|, k requires 0 <= k < |bs| => mem[bs[k]])
  }

  function Chunks(mem: Memory, bs: seq<FixedBuffer>, origin: seq<nat>): (r: seq<Chunk>)
    requires Known(mem, bs) && |origin| == |bs|
    ensures |r| == |bs| && forall k :: 0 <= k < |r| ==> r[k] == Chunk(origin[k], mem[bs[k]])
  {
    seq(|bs|, k requires 0 <= k < |bs| => Chunk(origin[k], mem[bs[k]]))
  }

  predicate InMemory(mem: Memory, s: Slots) {
    s.current != null && s.current in mem && (s.next != null ==> s.next in mem) && Known(mem, s.buffers)
  }

  function View(mem: Memory, s: Slots): Shard
    requires InMemory(mem, s)
  {
    Shard(mem[s.current], if s.next == null then None else Some(mem[s.next]), Texts(mem, s.buffers))
  }

  // ---------- what a change of memory leaves alone ----------

  predicate AgreeAt(mem: Memory, mem': Memory, bs: seq<FixedBuffer>, k: int) {
    0 <= k < |bs| ==> bs[k] in mem && bs[k] in mem' && mem[bs[k]] == mem'[bs[k]]
  }

  ghost predicate Agree(mem: Memory, mem': Memory, bs: seq<FixedBuffer>) {
    forall k {:trigger AgreeAt(mem, mem', bs, k)} :: AgreeAt(mem, mem', bs, k)
  }

  lemma TextsAgree(mem: Memory, mem': Memory, bs: seq<FixedBuffer>)
    requires Agree(mem, mem', bs)
    ensures Known(mem, bs) && Known(mem', bs) && Texts(mem, bs) == Texts(mem', bs)
  {
    forall k | 0 <= k < |bs| ensures bs[k] in mem && bs[k] in mem' && mem[bs[k]] == mem'[bs[k]] {
      assert AgreeAt(mem, mem', bs, k);
    }
  }

  lemma ViewAgrees(mem: Memory, mem': Memory, s: Slots)
    requires s.current != null && Agree(mem, mem', Refs(s))
    ensures InMemory(mem, s) && InMemory(mem', s) && View(mem', s) == View(mem, s)
  {
    var refs := Refs(s);
    var n := |refs| - |s.buffers|;
    assert AgreeAt(mem, mem', refs, 0);
    if s.next != null {
      assert AgreeAt(mem, mem', refs, 1);
    }
    forall k ensures AgreeAt(mem, mem', s.buffers, k) {
      assert AgreeAt(mem, mem', refs, n + k);
    }
    TextsAgree(mem, mem', s.buffers);
  }

  predicate SteadyAt(mem: Memory, home: Homes, mem': Memory, b: FixedBuffer) {
    b in mem && b in home && (home[b].AtShard? || home[b] == InToWrite) ==> b in mem' && mem'[b] == mem[b]
  }

  /** Buffers at shards and with the writer keep what they hold. */
  ghost predicate Steady(mem: Memory, home: Homes, mem': Memory) {
    forall b {:trigger SteadyAt(mem, home, mem', b)} :: b in mem ==> SteadyAt(mem, home, mem', b)
  }

  lemma SteadyChange(mem: Memory, home: Homes, b: FixedBuffer, x: Text)
    requires b in home ==> !home[b].AtShard? && home[b] != InToWrite
    ensures Steady(mem, home, mem[b := x])
  {
    forall c | c in mem ensures SteadyAt(mem, home, mem[b := x], c) {
    }
  }

  lemma SteadySame(mem: Memory, home: Homes)
    ensures Steady(mem, home, mem)
  {
    forall c | c in mem ensures SteadyAt(mem, home, mem, c) {
    }
  }

  lemma RowSteady(bs: seq<FixedBuffer>, home: Homes, place: Place, mem: Memory, mem': Memory)
    requires Homed(bs, home, place) && home.Keys <= mem.Keys && Steady(mem, home, mem')
             && (place.AtShard? || place == InToWrite)
    ensures Agree(mem, mem', bs)
  {
    forall k ensures AgreeAt(mem, mem', bs, k) {
      assert HomeAt(bs, home, place, k);
      if 0 <= k < |bs| {
        assert SteadyAt(mem, home, mem', bs[k]);
      }
    }
  }

  /** A change to one buffer is seen only at its own place. */
  lemma RowElsewhere(bs: seq<FixedBuffer>, home: Homes, place: Place, mem: Memory, b: FixedBuffer, x: Text)
    requires Homed(bs, home, place) && home.Keys <= mem.Keys && b in home && home[b] != place
    ensures Agree(mem, mem[b := x], bs)
  {
    var mem' := mem[b := x];
    forall k ensures AgreeAt(mem, mem', bs, k) {
      assert HomeAt(bs, home, place, k);
    }
  }

  // ---------- the book ----------

  datatype Book = Book(desk: Desk, origin: seq<nat>, mem: Memory, handled: seq<Chunk>, appended: seq<Text>,
                       mark: seq<nat>)

  predicate Fits(b: Book) {
    && |b.desk.shards| == |b.appended| == |b.mark| && |b.origin| == |b.desk.toWrite| && Known(b.mem, b.desk.toWrite)
  }

  function Waiting(b: Book): seq<Chunk>
    requires Fits(b)
  {
    Chunks(b.mem, b.desk.toWrite, b.origin)
  }

  ghost predicate SoundAt(b: Book, i: nat) {
    Fits(b) && (i < |b.desk.shards| ==>
      && InMemory(b.mem, b.desk.shards[i])
      && Sound(View(b.mem, b.desk.shards[i]), i, b.handled, Waiting(b), b.appended[i], b.mark[i]))
  }

  /** The desk is in order, every buffer on it is in memory, and every shard's account is right. */
  ghost predicate Balanced(b: Book) {
    && Placed(b.desk) && b.desk.home.Keys == b.mem.Keys && Fits(b)
    && forall i {:trigger SoundAt(b, i)} :: SoundAt(b, i)
  }

  predicate SameShard(b: Book, e: Book, k: int) {
    0 <= k < |b.desk.shards| ==>
      && k < |e.desk.shards| && InMemory(b.mem, b.desk.shards[k]) && InMemory(e.mem, e.desk.shards[k])
      && View(e.mem, e.desk.shards[k]) == View(b.mem, b.desk.shards[k])
  }

  /** Every shard holds what it held, but for one. */
  ghost predicate Alike(b: Book, e: Book, but: int) {
    |b.desk.shards| == |e.desk.shards| && forall k {:trigger SameShard(b, e, k)} :: k != but ==> SameShard(b, e, k)
  }

  lemma AlikeItself(b: Book, but: int)
    requires Balanced(b)
    ensures Alike(b, b, but)
  {
    forall k ensures SameShard(b, b, k) {
      if 0 <= k {
        assert SoundAt(b, k);
      }
    }
  }

  lemma AlikeJoin(a: Book, b: Book, c: Book, but: int)
    requires Alike(a, b, but) && Alike(b, c, but)
    ensures Alike(a, c, but)
  {
    forall k | k != but ensures SameShard(a, c, k) {
      assert SameShard(a, b, k) && SameShard(b, c, k);
    }
  }

  lemma WaitingSteady(b: Book, mem': Memory)
    requires Fits(b) && Placed(b.desk) && b.desk.home.Keys == b.mem.Keys && Steady(b.mem, b.desk.home, mem')
    ensures Known(mem', b.desk.toWrite) && Chunks(mem', b.desk.toWrite, b.origin) == Waiting(b)
  {
    RowSteady(b.desk.toWrite, b.desk.home, InToWrite, b.mem, mem');
    TextsAgree(b.mem, mem', b.desk.toWrite);
    forall k | 0 <= k < |b.desk.toWrite| ensures Chunks(mem', b.desk.toWrite, b.origin)[k] == Waiting(b)[k] {
      assert AgreeAt(b.mem, mem', b.desk.toWrite, k);
    }
  }

  lemma ShardSteady(d: Desk, i: nat, mem: Memory, mem': Memory)
    requires Placed(d) && d.home.Keys == mem.Keys && Steady(mem, d.home, mem') && i < |d.shards|
    ensures InMemory(mem, d.shards[i]) && InMemory(mem', d.shards[i])
    ensures View(mem', d.shards[i]) == View(mem, d.shards[i])
  {
    assert HomedShard(d, i);
    RowSteady(Refs(d.shards[i]), d.home, AtShard(i), mem, mem');
    ViewAgrees(mem, mem', d.shards[i]);
  }

  /** New pointers for one shard, after a steady change, keep the book if their account is right. */
  lemma ShardChanged(b: Book, e: Desk, mem': Memory, i: nat)
    requires Balanced(b) && Placed(e) && e.home.Keys == mem'.Keys && Steady(b.mem, b.desk.home, mem')
    requires e.toWrite == b.desk.toWrite && i < |b.desk.shards| && |e.shards| == |b.desk.shards|
             && e.shards == b.desk.shards[i := e.shards[i]]
    requires InMemory(mem', e.shards[i]) && Known(mem', e.toWrite)
    requires Sound(View(mem', e.shards[i]), i, b.handled, Waiting(b), b.appended[i], b.mark[i])
    ensures Balanced(b.(desk := e, mem := mem')) && Alike(b, b.(desk := e, mem := mem'), i)
    ensures Waiting(b.(desk := e, mem := mem')) == Waiting(b)
  {
    var b' := b.(desk := e, mem := mem');
    WaitingSteady(b, mem');
    forall k | k != i ensures SameShard(b, b', k) {
      if 0 <= k < |e.shards| {
        ShardSteady(b.desk, k, b.mem, mem');
      }
    }
    forall k: nat ensures SoundAt(b', k) {
      assert SoundAt(b, k);
      if k != i {
        assert SameShard(b, b', k);
      }
    }
  }

  /** A rotation: `x` is the next buffer, or another one that is empty. */
  lemma RotationBalanced(b: Book, e: Desk, mem': Memory, i: nat, x: FixedBuffer)
    requires Balanced(b) && Placed(e) && e.home.Keys == mem'.Keys && Steady(b.mem, b.desk.home, mem')
    requires e.toWrite == b.desk.toWrite && i < |b.desk.shards| && b.desk.shards[i].current != null
    requires e.shards == b.desk.shards[i := RotatedSlots(b.desk.shards[i], x)]
    requires x in mem' && (if b.desk.shards[i].next != null then x == b.desk.shards[i].next else mem'[x] == [])
    ensures Balanced(b.(desk := e, mem := mem')) && Alike(b, b.(desk := e, mem := mem'), i)
    ensures Waiting(b.(desk := e, mem := mem')) == Waiting(b)
    ensures InMemory(b.mem, b.desk.shards[i]) && InMemory(mem', e.shards[i])
    ensures View(mem', e.shards[i]) == RotatedShard(View(b.mem, b.desk.shards[i]))
  {
    var s := b.desk.shards[i];
    assert SoundAt(b, i);
    var v := View(b.mem, s);
    ShardSteady(b.desk, i, b.mem, mem');
    assert Texts(mem', s.buffers + [s.current]) == Texts(mem', s.buffers) + [mem'[s.current]];
    assert View(mem', RotatedSlots(s, x)) == RotatedShard(v);
    RotatedSound(v, i, b.handled, Waiting(b), b.appended[i], b.mark[i]);
    WaitingSteady(b, mem');
    ShardChanged(b, e, mem', i);
  }

  lemma ReplenishBalanced(b: Book, e: Desk, mem': Memory, i: nat, x: FixedBuffer)
    requires Balanced(b) && Placed(e) && e.home.Keys == mem'.Keys && Steady(b.mem, b.desk.home, mem')
    requires e.toWrite == b.desk.toWrite && i < |b.desk.shards|
    requires e.shards == b.desk.shards[i := b.desk.shards[i].(next := x)] && x in mem' && mem'[x] == []
    ensures Balanced(b.(desk := e, mem := mem')) && Alike(b, b.(desk := e, mem := mem'), i)
    ensures Waiting(b.(desk := e, mem := mem')) == Waiting(b)
    ensures InMemory(b.mem, b.desk.shards[i]) && InMemory(mem', e.shards[i])
    ensures View(mem', e.shards[i]) == View(b.mem, b.desk.shards[i]).(next := Some([]))
  {
    assert SoundAt(b, i);
    var v := View(b.mem, b.desk.shards[i]);
    ShardSteady(b.desk, i, b.mem, mem');
    SameHeldSound(v, v.(next := Some([])), i, b.handled, Waiting(b), b.appended[i], b.mark[i]);
    WaitingSteady(b, mem');
    ShardChanged(b, e, mem', i);
  }

  function NextBook(b: Book, i: nat): Book
    requires i < |b.desk.shards| && b.desk.shards[i].current != null && b.desk.shards[i].next != null
  {
    b.(desk := b.desk.(shards := b.desk.shards[i := RotatedSlots(b.desk.shards[i], b.desk.shards[i].next)]))
  }

  lemma RotatedToNext(b: Book, i: nat)
    requires Balanced(b) && i < |b.desk.shards| && b.desk.shards[i].next != null
    ensures b.desk.shards[i].current != null && InMemory(b.mem, b.desk.shards[i])
    ensures var e := NextBook(b, i);
            && Balanced(e) && Alike(b, e, i) && Waiting(e) == Waiting(b) && InMemory(b.mem, e.desk.shards[i])
            && View(b.mem, e.desk.shards[i]) == RotatedShard(View(b.mem, b.desk.shards[i]))
  {
    NextPlaced(b.desk, i);
    SteadySame(b.mem, b.desk.home);
    RotationBalanced(b, NextBook(b, i).desk, b.mem, i, b.desk.shards[i].next);
  }

  /** The desk differs from the book's by a buffer taken from the pool or the spares, or made. */
  predicate TookOne(b: Book, d: Desk, x: FixedBuffer) {
    && d.shards == b.desk.shards && d.toWrite == b.desk.toWrite && d.home == b.desk.home[x := InHand]
    && (x in b.desk.home ==> b.desk.home[x] == InPool || b.desk.home[x] == InSpare)
  }

  function OtherBook(b: Book, d: Desk, i: nat, x: FixedBuffer): Book
    requires i < |d.shards| && d.shards[i].current != null
  {
    b.(desk := d.(shards := d.shards[i := RotatedSlots(d.shards[i], x)], home := d.home[x := AtShard(i)]),
       mem := b.mem[x := []])
  }

  lemma RotatedToOther(b: Book, d: Desk, i: nat, x: FixedBuffer)
    requires Balanced(b) && Placed(d) && TookOne(b, d, x) && i < |d.shards| && d.shards[i].next == null
    ensures d.shards[i].current != null && InMemory(b.mem, d.shards[i])
    ensures var e := OtherBook(b, d, i, x);
            && Balanced(e) && Alike(b, e, i) && Waiting(e) == Waiting(b) && InMemory(e.mem, e.desk.shards[i])
            && View(e.mem, e.desk.shards[i]) == RotatedShard(View(b.mem, d.shards[i]))
  {
    OtherPlaced(d, i, x);
    SteadyChange(b.mem, b.desk.home, x, []);
    var e := OtherBook(b, d, i, x);
    RotationBalanced(b, e.desk, e.mem, i, x);
  }

  function ReplenishedBook(b: Book, d: Desk, i: nat, x: FixedBuffer): Book
    requires i < |d.shards|
  {
    b.(desk := d.(shards := d.shards[i := d.shards[i].(next := x)], home := d.home[x := AtShard(i)]),
       mem := b.mem[x := []])
  }

  lemma Replenished(b: Book, d: Desk, i: nat, x: FixedBuffer)
    requires Balanced(b) && Placed(d) && TookOne(b, d, x) && i < |d.shards| && d.shards[i].next == null
    ensures InMemory(b.mem, d.shards[i])
    ensures var e := ReplenishedBook(b, d, i, x);
            && Balanced(e) && Alike(b, e, i) && Waiting(e) == Waiting(b) && InMemory(e.mem, e.desk.shards[i])
            && View(e.mem, e.desk.shards[i]) == View(b.mem, d.shards[i]).(next := Some([]))
  {
    NextGiven(d, i, x);
    SteadyChange(b.mem, b.desk.home, x, []);
    var e := ReplenishedBook(b, d, i, x);
    ReplenishBalanced(b, e.desk, e.mem, i, x);
  }

  // ---------- filling ----------

  lemma FilledView(d: Desk, i: nat, mem: Memory, x: Text)
    requires Placed(d) && i < |d.shards| && d.home.Keys == mem.Keys && d.shards[i].current != null
    ensures d.shards[i].current in d.home && d.home[d.shards[i].current] == AtShard(i)
    ensures InMemory(mem, d.shards[i]) && InMemory(mem[d.shards[i].current := x], d.shards[i])
    ensures View(mem[d.shards[i].current := x], d.shards[i]) == View(mem, d.shards[i]).(current := x)
  {
    var s := d.shards[i];
    var refs, mem' := Refs(s), mem[s.current := x];
    var n := |refs| - |s.buffers|;
    assert HomedShard(d, i) && HomeAt(refs, d.home, AtShard(i), 0);
    if s.next != null {
      assert HomeAt(refs, d.home, AtShard(i), 1) && Differ(refs, 0, 1);
    }
    forall k ensures AgreeAt(mem, mem', s.buffers, k) {
      assert HomeAt(refs, d.home, AtShard(i), n + k) && Differ(refs, 0, n + k);
    }
    TextsAgree(mem, mem', s.buffers);
  }

  function FilledBook(b: Book, i: nat, line: Text): Book
    requires Fits(b) && i < |b.desk.shards| && InMemory(b.mem, b.desk.shards[i])
             && |View(b.mem, b.desk.shards[i]).current| <= CAPACITY
  {
    var held := View(b.mem, b.desk.shards[i]).current;
    b.(mem := b.mem[b.desk.shards[i].current := Filled(held, line, CAPACITY)],
       appended := b.appended[i := b.appended[i] + Fitting(held, line)])
  }

  lemma FilledIsBalanced(b: Book, i: nat, line: Text)
    requires Balanced(b) && i < |b.desk.shards|
    ensures SoundAt(b, i)
    ensures var e := FilledBook(b, i, line); Balanced(e) && Alike(b, e, i) && Waiting(e) == Waiting(b)
  {
    assert SoundAt(b, i);
    var x, v, b' := b.desk.shards[i].current, View(b.mem, b.desk.shards[i]), FilledBook(b, i, line);
    var text := b'.mem[x];
    FilledView(b.desk, i, b.mem, text);
    FilledSound(v, line, i, b.handled, Waiting(b), b.appended[i], b.mark[i]);
    RowElsewhere(b.desk.toWrite, b.desk.home, InToWrite, b.mem, x, text);
    TextsAgree(b.mem, b'.mem, b.desk.toWrite);
    ChunksFromTexts(b.mem, b'.mem, b.desk.toWrite, b.origin);
    forall k | k != i ensures SameShard(b, b', k) {
      if 0 <= k < |b.desk.shards| {
        assert HomedShard(b.desk, k);
        RowElsewhere(Refs(b.desk.shards[k]), b.desk.home, AtShard(k), b.mem, x, text);
        ViewAgrees(b.mem, b'.mem, b.desk.shards[k]);
      }
    }
    forall k: nat ensures SoundAt(b', k) {
      assert SoundAt(b, k);
      if k != i {
        assert SameShard(b, b', k);
      }
    }
  }

  lemma ChunksFromTexts(mem: Memory, mem': Memory, bs: seq<FixedBuffer>, origin: seq<nat>)
    requires Known(mem, bs) && Known(mem', bs) && |origin| == |bs| && Texts(mem, bs) == Texts(mem', bs)
    ensures Chunks(mem, bs, origin) == Chunks(mem', bs, origin)
  {
    forall k | 0 <= k < |bs| ensures mem[bs[k]] == mem'[bs[k]] {
      assert Texts(mem, bs)[k] == Texts(mem', bs)[k];
    }
  }

  // ---------- handing over ----------

  function Repeated(i: nat, n: nat): (r: seq<nat>)
    ensures |r| == n && forall k :: 0 <= k < n ==> r[k] == i
  {
    seq(n, _ => i)
  }

  lemma ChunksGiven(mem: Memory, bs: seq<FixedBuffer>, origin: seq<nat>, given: seq<FixedBuffer>, i: nat)
    requires Known(mem, bs) && Known(mem, given) && |origin| == |bs|
    ensures Known(mem, bs + given)
    ensures Chunks(mem, bs + given, origin + Repeated(i, |given|)) ==
            Chunks(mem, bs, origin) + Tagged(Texts(mem, given), i)
  {
  }

  lemma HandOverBalanced(b: Book, e: Desk, i: nat)
    requires Balanced(b) && Placed(e) && e.home.Keys == b.mem.Keys && i < |b.desk.shards|
    requires InMemory(b.mem, b.desk.shards[i]) && View(b.mem, b.desk.shards[i]).current == []
    requires e.shards == b.desk.shards[i := b.desk.shards[i].(buffers := [])]
    requires e.toWrite == b.desk.toWrite + b.desk.shards[i].buffers
    ensures var b' := b.(desk := e, origin := b.origin + Repeated(i, |b.desk.shards[i].buffers|),
                         mark := b.mark[i := |b.appended[i]|]);
            Balanced(b') && Alike(b, b', i)
    ensures InMemory(b.mem, e.shards[i]) && View(b.mem, e.shards[i]) == View(b.mem, b.desk.shards[i]).(buffers := [])
  {
    var s := b.desk.shards[i];
    var v := View(b.mem, s);
    assert SoundAt(b, i);
    ChunksGiven(b.mem, b.desk.toWrite, b.origin, s.buffers, i);
    HandedSound(v, i, b.handled, Waiting(b), b.appended[i], b.mark[i]);
    assert View(b.mem, s.(buffers := [])) == v.(buffers := []);
    var b' := b.(desk := e, origin := b.origin + Repeated(i, |s.buffers|), mark := b.mark[i := |b.appended[i]|]);
    forall k: int | k != i ensures SameShard(b, b', k) {
      if 0 <= k {
        assert SoundAt(b, k);
      }
    }
    forall k: nat ensures SoundAt(b', k) {
      assert SoundAt(b, k);
      if k < |e.shards| && k != i {
        CollectElsewhere(View(b.mem, b.desk.shards[k]), k, v.buffers, i, b.handled, Waiting(b), b.appended[k],
                         b.mark[k]);
      }
    }
  }

  function HandedBook(b: Book, i: nat): Book
    requires i < |b.desk.shards| && |b.appended| == |b.mark| == |b.desk.shards|
  {
    var s := b.desk.shards[i];
    var e := b.desk.(shards := b.desk.shards[i := s.(buffers := [])], toWrite := b.desk.toWrite + s.buffers,
                     home := GivenHomes(b.desk.home, s.buffers));
    b.(desk := e, origin := b.origin + Repeated(i, |s.buffers|), mark := b.mark[i := |b.appended[i]|])
  }

  lemma HandedOver(b: Book, i: nat)
    requires Balanced(b) && i < |b.desk.shards| && SoundAt(b, i) && View(b.mem, b.desk.shards[i]).current == []
    ensures var e := HandedBook(b, i);
            && Balanced(e) && Alike(b, e, i) && InMemory(b.mem, e.desk.shards[i])
            && View(b.mem, e.desk.shards[i]) == View(b.mem, b.desk.shards[i]).(buffers := [])
  {
    BuffersGiven(b.desk, i);
    HandOverBalanced(b, HandedBook(b, i).desk, i);
  }

  /** A collect that leaves nothing behind has given the writer what the shard held. */
  lemma CollectedBytes(b: Book, e: Book, i: nat)
    requires Balanced(b) && Balanced(e) && i < |b.desk.shards| == |e.desk.shards|
    requires e.handled == b.handled && e.appended == b.appended && e.mark[i] == |b.appended[i]|
    ensures SoundAt(b, i)
    ensures ChunkBytes(Waiting(e), i) == ChunkBytes(Waiting(b), i) + View(b.mem, b.desk.shards[i]).Held()
  {
    assert SoundAt(b, i) && SoundAt(e, i);
    var h, w, held, t := ChunkBytes(b.handled, i), ChunkBytes(Waiting(b), i), View(b.mem, b.desk.shards[i]).Held(),
        b.appended[i];
    Split(t, b.mark[i]);
    assert t[..|t|] == t;
    Assoc(h, w, held);
    assert (h + ChunkBytes(Waiting(e), i))[|h|..] == ChunkBytes(Waiting(e), i);
    assert (h + (w + held))[|h|..] == w + held;
  }

  // ---------- writing ----------

  function WrittenBook(b: Book, e: Desk, mem': Memory): Book
    requires Fits(b)
  {
    b.(desk := e, origin := [], mem := mem', handled := b.handled + Waiting(b))
  }

  /** Everything waiting is dealt with, and the writer's buffers go elsewhere. */
  lemma WrittenIsBalanced(b: Book, e: Desk, mem': Memory)
    requires Balanced(b) && Placed(e) && e.home.Keys == mem'.Keys && |e.shards| == |b.desk.shards| && e.toWrite == []
    requires Alike(b, WrittenBook(b, e, mem'), -1)
    ensures Balanced(WrittenBook(b, e, mem'))
  {
    var b' := WrittenBook(b, e, mem');
    assert Fits(b') && Waiting(b') == [];
    forall k: nat ensures SoundAt(b', k) {
      assert SoundAt(b, k) && SameShard(b, b', k);
      if k < |e.shards| {
        WriteSound(View(b.mem, b.desk.shards[k]), k, b.handled, Waiting(b), b.appended[k], b.mark[k]);
      }
    }
  }

  /** A round changes no buffer. */
  lemma WrittenInPlace(b: Book, e: Desk)
    requires Balanced(b) && Placed(e) && e.home.Keys == b.mem.Keys && e.shards == b.desk.shards && e.toWrite == []
    ensures Balanced(WrittenBook(b, e, b.mem)) && Alike(b, WrittenBook(b, e, b.mem), -1)
  {
    forall k ensures SameShard(b, WrittenBook(b, e, b.mem), k) {
      if 0 <= k {
        assert SoundAt(b, k);
      }
    }
    WrittenIsBalanced(b, e, b.mem);
  }

  /** Steady so far, and still so for the buffers that were not in hand. */
  ghost predicate SteadyOn(mem: Memory, home: Homes, mem': Memory, home': Homes) {
    Steady(mem, home, mem') && KeepsOthers(home, home', {InHand})
  }

  lemma SteadyStart(mem: Memory, home: Homes)
    ensures SteadyOn(mem, home, mem, home)
  {
    SteadySame(mem, home);
    forall c | c in home ensures KeptAt(home, home, {InHand}, c) {
    }
  }

  lemma SteadyGoesOn(m: Memory, h: Homes, mem: Memory, home: Homes, b: FixedBuffer, to: Place)
    requires SteadyOn(m, h, mem, home) && b in home && home[b] == InHand
    ensures SteadyOn(m, h, mem[b := []], home[b := to])
  {
    var mem', home' := mem[b := []], home[b := to];
    forall c | c in m ensures SteadyAt(m, h, mem', c) {
      assert SteadyAt(m, h, mem, c);
      assert c in h ==> KeptAt(h, home, {InHand}, c);
    }
    forall c | c in h ensures KeptAt(h, home', {InHand}, c) {
      assert KeptAt(h, home, {InHand}, c);
    }
  }

  /** Recycling the writer's buffers changes no shard. */
  lemma RecycledIsBalanced(b: Book, e: Desk, mem': Memory)
    requires Balanced(b) && Placed(e) && e.home.Keys == mem'.Keys && e.shards == b.desk.shards && e.toWrite == []
    requires Steady(b.mem, TakenHomes(b.desk.home, b.desk.spare + b.desk.toWrite), mem')
    ensures Balanced(WrittenBook(b, e, mem')) && Alike(b, WrittenBook(b, e, mem'), -1)
  {
    AllTaken(b.desk);
    var d := b.desk.(spare := [], toWrite := [], home := TakenHomes(b.desk.home, b.desk.spare + b.desk.toWrite));
    forall k ensures SameShard(b, WrittenBook(b, e, mem'), k) {
      if 0 <= k < |b.desk.shards| {
        ShardSteady(d, k, b.mem, mem');
      }
    }
    WrittenIsBalanced(b, e, mem');
  }

  /** A desk that differs only where no text of the account is. */
  lemma DeskChanged(b: Book, e: Desk, mem': Memory)
    requires Balanced(b) && Placed(e) && e.home.Keys == mem'.Keys && Steady(b.mem, b.desk.home, mem')
    requires e.shards == b.desk.shards && e.toWrite == b.desk.toWrite
    ensures Balanced(b.(desk := e, mem := mem'))
  {
    var b' := b.(desk := e, mem := mem');
    WaitingSteady(b, mem');
    forall k: nat ensures SoundAt(b', k) {
      assert SoundAt(b, k);
      if k < |e.shards| {
        ShardSteady(b.desk, k, b.mem, mem');
      }
    }
  }

  // ---------- starting ----------

  function OpenedBook(b: Book, x: FixedBuffer, y: FixedBuffer): Book {
    var n := |b.desk.shards|;
    Book(b.desk.(shards := b.desk.shards + [Slots(x, y, [])], home := b.desk.home[x := AtShard(n)][y := AtShard(n)]),
         b.origin, b.mem[x := []][y := []], b.handled, b.appended + [[]], b.mark + [0])
  }

  lemma OpenedPlaced(d: Desk, x: FixedBuffer, y: FixedBuffer)
    requires Placed(d) && x != y && x !in d.home && y !in d.home
    ensures var n := |d.shards|;
            Placed(d.(shards := d.shards + [Slots(x, y, [])], home := d.home[x := AtShard(n)][y := AtShard(n)]))
  {
    var n, e := |d.shards|, d.(home := d.home[x := InHand]);
    HandMoved(d, x, InHand);
    HandMoved(e, y, InHand);
    ShardOpened(e.(home := e.home[y := InHand]), x, y);
    assert d.home[x := InHand][y := InHand][x := AtShard(n)][y := AtShard(n)] ==
           d.home[x := AtShard(n)][y := AtShard(n)];
  }

  lemma OpenedIsBalanced(b: Book, x: FixedBuffer, y: FixedBuffer)
    requires Balanced(b) && x != y && x !in b.desk.home && y !in b.desk.home && b.handled == [] && b.desk.toWrite == []
    ensures Balanced(OpenedBook(b, x, y))
  {
    var e, n := OpenedBook(b, x, y), |b.desk.shards|;
    OpenedPlaced(b.desk, x, y);
    forall c | c in b.mem ensures SteadyAt(b.mem, b.desk.home, e.mem, c) {
    }
    assert Fits(e) && Waiting(e) == Waiting(b) == [];
    forall k: nat ensures SoundAt(e, k) {
      assert SoundAt(b, k);
      if k < n {
        ShardSteady(b.desk, k, b.mem, e.mem);
      } else if k == n {
        assert View(e.mem, e.desk.shards[n]) == Shard([], Some([]), []);
      }
    }
  }

  lemma StockedPool(b: Book, x: FixedBuffer)
    requires Balanced(b) && x !in b.desk.home
    ensures Balanced(b.(desk := b.desk.(pool := b.desk.pool + [x], home := b.desk.home[x := InPool]),
                        mem := b.mem[x := []]))
  {
    var d := b.desk.(home := b.desk.home[x := InHand]);
    HandMoved(b.desk, x, InHand);
    PoolPushed(d, x);
    assert d.home[x := InPool] == b.desk.home[x := InPool];
    SteadyChange(b.mem, b.desk.home, x, []);
    DeskChanged(b, b.desk.(pool := b.desk.pool + [x], home := b.desk.home[x := InPool]), b.mem[x := []]);
  }

  lemma StockedSpare(b: Book, x: FixedBuffer)
    requires Balanced(b) && x !in b.desk.home
    ensures Balanced(b.(desk := b.desk.(spare := b.desk.spare + [x], home := b.desk.home[x := InSpare]),
                        mem := b.mem[x := []]))
  {
    var d := b.desk.(home := b.desk.home[x := InHand]);
    HandMoved(b.desk, x, InHand);
    SparePushed(d, x);
    assert d.home[x := InSpare] == b.desk.home[x := InSpare];
    SteadyChange(b.mem, b.desk.home, x, []);
    DeskChanged(b, b.desk.(spare := b.desk.spare + [x], home := b.desk.home[x := InSpare]), b.mem[x := []]);
  }

  const NOTHING := Book(Desk([], [], [], [], map[]), [], map[], [], [], [])

  lemma NothingIsBalanced()
    ensures Balanced(NOTHING)
  {
    EmptyHomed(map[], InPool);
    EmptyHomed(map[], InSpare);
    EmptyHomed(map[], InToWrite);
    forall k: nat ensures HomedShard(NOTHING.desk, k) {
    }
    forall k: nat ensures SoundAt(NOTHING, k) {
    }
  }
}
