/**
 The values behind AsyncLogging: what a fixed-size buffer, a shard and the writer's log hold,
 and what appending, collecting and writing do to them.
 */
module AsyncLog {
  import opened Bytes

  const CAPACITY := 4000 * 1000
  const POOL_MAX := 64
  const SPARE_MAX := 32
  const DROP_ABOVE := 25

  type Text = seq<byte>

  // ---------- FixedBuffer ----------

  /** What a buffer of the given capacity holds after an append: as much of the text as fits. */
  function Filled(held: Text, text: Text, capacity: nat): (r: Text)
    requires |held| <= capacity
    ensures |r| <= capacity && held <= r && r <= held + text
    ensures |held| + |text| <= capacity ==> r == held + text
  {
    var room := capacity - |held|;
    held + text[..if |text| <= room then |text| else room]
  }

  class FixedBuffer {
    const data: array<byte>
    var writePos: nat

    ghost predicate Valid()
      reads this
    {
      writePos <= data.Length
    }

    ghost function Contents(): Text
      requires Valid()
      reads this, data
    {
      data[..writePos]
    }

    constructor (size: nat)
      ensures Valid() && Contents() == [] && data.Length == size && fresh(data)
    {
      data := new byte[size](_ => 0);
      writePos := 0;
    }

    method Append(text: Text)
      requires Valid()
      modifies this`writePos, data
      ensures Valid() && Contents() == Filled(old(Contents()), text, data.Length)
    {
      var room := data.Length - writePos;
      var n := if |text| <= room then |text| else room;
      var i := 0;
      while i < n
        invariant 0 <= i <= n && data[..writePos + i] == old(data[..writePos]) + text[..i]
        modifies data
      {
        data[writePos + i] := text[i];
        i := i + 1;
      }
      writePos := writePos + n;
    }

    method Reset()
      modifies this`writePos
      ensures Valid() && Contents() == []
    {
      writePos := 0;
    }

    function Avail(): int
      reads this
    {
      data.Length - writePos
    }
  }

  // ---------- the log ----------

  /** One shard: the buffer being filled, the next one if it is there, and the full ones. */
  datatype Shard = Shard(current: Text, next: Option<Text>, buffers: seq<Text>)
  {
    function Held(): Text {
      Concat(buffers) + current
    }
  }

  /** A collected buffer, and the shard it came from. */
  datatype Chunk = Chunk(shard: nat, data: Text)

  /** What the writer did, in order. */
  datatype Entry = Wrote(chunk: Chunk) | Dropped(chunk: Chunk) | Notice

  /** The bytes of one shard among chunks, and among what the writer did or wrote. */
  function ChunkBytes(chunks: seq<Chunk>, shard: nat): Text {
    if chunks == [] then []
    else ChunkBytes(chunks[..|chunks| - 1], shard) + Of(chunks[|chunks| - 1], shard)
  }

  function Of(c: Chunk, shard: nat): Text {
    if c.shard == shard then c.data else []
  }

  /** The chunks the writer has dealt with, and those of them it wrote. */
  function Handled(log: seq<Entry>): seq<Chunk> {
    if log == [] then []
    else Handled(log[..|log| - 1]) + if log[|log| - 1].Notice? then [] else [log[|log| - 1].chunk]
  }

  function Written(log: seq<Entry>): seq<Chunk> {
    if log == [] then []
    else Written(log[..|log| - 1]) + if log[|log| - 1].Wrote? then [log[|log| - 1].chunk] else []
  }

  lemma {:induction false} ChunkBytesAppend(a: seq<Chunk>, b: seq<Chunk>, shard: nat)
    ensures ChunkBytes(a + b, shard) == ChunkBytes(a, shard) + ChunkBytes(b, shard)
    decreases |b|
  {
    if b == [] {
      assert a + b == a;
    } else {
      var n := |b| - 1;
      assert (a + b)[..|a + b| - 1] == a + b[..n] && (a + b)[|a + b| - 1] == b[n];
      ChunkBytesAppend(a, b[..n], shard);
      Assoc(ChunkBytes(a, shard), ChunkBytes(b[..n], shard), Of(b[n], shard));
    }
  }

  lemma {:induction false} HandledAppend(a: seq<Entry>, b: seq<Entry>)
    ensures Handled(a + b) == Handled(a) + Handled(b)
    decreases |b|
  {
    if b == [] {
      assert a + b == a;
    } else {
      var n := |b| - 1;
      assert (a + b)[..|a| + n] == a + b[..n];
      HandledAppend(a, b[..n]);
    }
  }

  /** A log without drops has written everything it dealt with. */
  lemma {:induction false} NoDropsWritesAll(log: seq<Entry>)
    requires forall e :: e in log ==> !e.Dropped?
    ensures Written(log) == Handled(log)
  {
    if log != [] {
      assert log[|log| - 1] in log;
      NoDropsWritesAll(log[..|log| - 1]);
    }
  }

  function Tagged(buffers: seq<Text>, shard: nat): (r: seq<Chunk>)
    ensures |r| == |buffers|
    ensures forall i :: 0 <= i < |r| ==> r[i] == Chunk(shard, buffers[i])
  {
    seq(|buffers|, i requires 0 <= i < |buffers| => Chunk(shard, buffers[i]))
  }

  lemma {:induction false} TaggedBytes(buffers: seq<Text>, shard: nat, other: nat)
    ensures ChunkBytes(Tagged(buffers, shard), other) == if other == shard then Concat(buffers) else []
  {
    if buffers != [] {
      var n := |buffers| - 1;
      assert Tagged(buffers, shard)[..n] == Tagged(buffers[..n], shard);
      TaggedBytes(buffers[..n], shard, other);
      assert buffers == buffers[..n] + [buffers[n]];
      ConcatAppend(buffers[..n], [buffers[n]]);
      assert Concat([buffers[n]]) == buffers[n] + Concat([buffers[n]][1..]) == buffers[n];
    }
  }

  /** What an append keeps of a line, given what the current buffer holds. */
  function Kept(current: Text, line: Text): Text {
    var room := if |current| <= CAPACITY then CAPACITY - |current| else 0;
    if room >= WrapInt32(|line|) then line[..if |line| <= room then |line| else room]
    else line[..if |line| <= CAPACITY then |line| else CAPACITY]
  }

  /**
   A line is truncated to one buffer unless its size wraps to at most the room left and the
   buffer is not empty; that takes a line of 2 GiB or more.
   */
  lemma KeptExactly(current: Text, line: Text)
    requires |current| <= 4_000_000
    ensures var room := 4_000_000 - |current|;
            Kept(current, line) == line[..if |line| <= 4_000_000 then |line| else 4_000_000]
            <==> |line| <= room || WrapInt32(|line|) > room || current == []
    ensures |line| < 0x8000_0000 ==> Kept(current, line) == line[..if |line| <= 4_000_000 then |line| else 4_000_000]
  {
    assert Pow256(4) == 0x1_0000_0000;
    var room := CAPACITY - |current|;
    var whole := line[..if |line| <= CAPACITY then |line| else CAPACITY];
    if |line| > room && WrapInt32(|line|) <= room && current != [] {
      assert |Kept(current, line)| == room < |whole|;
    }
  }

  // ---------- one shard, as a value ----------

  /**
   Shard i is in order: of everything appended to it, the first `mark` bytes are with the
   writer, dealt with or still to write, and the rest is in its buffers.
   */
  ghost predicate Sound(s: Shard, i: nat, handled: seq<Chunk>, toWrite: seq<Chunk>, appended: Text, mark: nat) {
    && mark <= |appended|
    && ChunkBytes(handled, i) + ChunkBytes(toWrite, i) == appended[..mark]
    && s.Held() == appended[mark..]
    && |s.current| <= CAPACITY
    && (s.next.Some? ==> s.next.value == [])
  }

  /** The full current buffer joins the others, and an empty one takes its place. */
  lemma Rotated(s: Shard, next: Option<Text>)
    ensures Shard([], next, s.buffers + [s.current]).Held() == s.Held() == Concat(s.buffers + [s.current])
  {
    ConcatAppend(s.buffers, [s.current]);
    assert Concat([s.current]) == s.current + Concat([s.current][1..]) == s.current;
  }

  lemma AppendSound(s: Shard, t: Shard, kept: Text, i: nat, handled: seq<Chunk>, toWrite: seq<Chunk>, appended: Text,
                    mark: nat)
    requires Sound(s, i, handled, toWrite, appended, mark)
    requires t.Held() == s.Held() + kept && |t.current| <= CAPACITY && (t.next.Some? ==> t.next.value == [])
    ensures Sound(t, i, handled, toWrite, appended + kept, mark)
  {
    assert (appended + kept)[..mark] == appended[..mark];
    assert (appended + kept)[mark..] == appended[mark..] + kept;
  }

  lemma CollectSound(s: Shard, buffers: seq<Text>, i: nat, handled: seq<Chunk>, toWrite: seq<Chunk>, appended: Text,
                     mark: nat)
    requires Sound(s, i, handled, toWrite, appended, mark) && Concat(buffers) == s.Held()
    ensures Sound(Shard([], Some([]), []), i, handled, toWrite + Tagged(buffers, i), appended, |appended|)
  {
    ChunkBytesAppend(toWrite, Tagged(buffers, i), i);
    TaggedBytes(buffers, i, i);
    Assoc(ChunkBytes(handled, i), ChunkBytes(toWrite, i), s.Held());
    Split(appended, mark);
    assert Shard([], Some([]), []).Held() == [];
  }

  lemma CollectElsewhere(s: Shard, k: nat, buffers: seq<Text>, i: nat, handled: seq<Chunk>, toWrite: seq<Chunk>,
                         appended: Text, mark: nat)
    requires Sound(s, k, handled, toWrite, appended, mark) && k != i
    ensures Sound(s, k, handled, toWrite + Tagged(buffers, i), appended, mark)
  {
    ChunkBytesAppend(toWrite, Tagged(buffers, i), k);
    TaggedBytes(buffers, i, k);
    assert ChunkBytes(toWrite, k) + [] == ChunkBytes(toWrite, k);
  }

  lemma WriteSound(s: Shard, i: nat, handled: seq<Chunk>, toWrite: seq<Chunk>, appended: Text, mark: nat)
    requires Sound(s, i, handled, toWrite, appended, mark)
    ensures Sound(s, i, handled + toWrite, [], appended, mark)
  {
    ChunkBytesAppend(handled, toWrite, i);
    assert ChunkBytes(handled + toWrite, i) + [] == ChunkBytes(handled + toWrite, i);
  }

  function WroteAll(chunks: seq<Chunk>): (r: seq<Entry>)
    ensures |r| == |chunks| && forall i :: 0 <= i < |r| ==> r[i] == Wrote(chunks[i])
  {
    seq(|chunks|, i requires 0 <= i < |chunks| => Wrote(chunks[i]))
  }

  function DroppedAll(chunks: seq<Chunk>): (r: seq<Entry>)
    ensures |r| == |chunks| && forall i :: 0 <= i < |r| ==> r[i] == Dropped(chunks[i])
  {
    seq(|chunks|, i requires 0 <= i < |chunks| => Dropped(chunks[i]))
  }

  lemma {:induction false} HandledAll(chunks: seq<Chunk>)
    ensures Handled(WroteAll(chunks)) == chunks && Handled(DroppedAll(chunks)) == chunks
  {
    if chunks != [] {
      var n := |chunks| - 1;
      assert WroteAll(chunks)[..n] == WroteAll(chunks[..n]);
      assert DroppedAll(chunks)[..n] == DroppedAll(chunks[..n]);
      HandledAll(chunks[..n]);
    }
  }

  lemma HandledRound(log: seq<Entry>, kept: seq<Chunk>, gone: seq<Chunk>)
    ensures Handled(log + ([Notice] + WroteAll(kept) + DroppedAll(gone))) == Handled(log) + (kept + gone)
  {
    var noted := [Notice] + WroteAll(kept);
    HandledAppend(log, noted + DroppedAll(gone));
    HandledAppend(noted, DroppedAll(gone));
    HandledAll(gone);
    assert Handled(noted) == kept by {
      HandledAppend([Notice], WroteAll(kept));
      HandledAll(kept);
      assert [Notice][..0] == [];
    }
  }

  /** What one round appends to the log: with more than 25 buffers all but the first two are dropped whole. */
  function RoundOf(cs: seq<Chunk>): seq<Entry> {
    if |cs| > DROP_ABOVE then [Notice] + WroteAll(cs[..2]) + DroppedAll(cs[2..]) else WroteAll(cs)
  }

  lemma {:induction false} WrittenAppend(a: seq<Entry>, b: seq<Entry>)
    ensures Written(a + b) == Written(a) + Written(b)
    decreases |b|
  {
    if b == [] {
      assert a + b == a;
    } else {
      var n := |b| - 1;
      assert (a + b)[..|a| + n] == a + b[..n];
      WrittenAppend(a, b[..n]);
    }
  }

  lemma {:induction false} WrittenOf(chunks: seq<Chunk>)
    ensures Written(WroteAll(chunks)) == chunks && Written(DroppedAll(chunks)) == []
  {
    if chunks != [] {
      var n := |chunks| - 1;
      assert WroteAll(chunks)[..n] == WroteAll(chunks[..n]);
      assert DroppedAll(chunks)[..n] == DroppedAll(chunks[..n]);
      WrittenOf(chunks[..n]);
    }
  }

  /** What a round writes: everything, or the first two buffers of more than 25, behind a notice. */
  lemma RoundWrites(log: seq<Entry>, cs: seq<Chunk>)
    ensures Written(log + RoundOf(cs)) == Written(log) + if |cs| > 25 then cs[..2] else cs
    ensures Notice in RoundOf(cs) <==> |cs| > 25
    ensures |cs| > 25 ==> RoundOf(cs)[0] == Notice
  {
    WrittenAppend(log, RoundOf(cs));
    if |cs| > 25 {
      var first := [Notice] + WroteAll(cs[..2]);
      WrittenAppend(first, DroppedAll(cs[2..]));
      WrittenAppend([Notice], WroteAll(cs[..2]));
      WrittenOf(cs[..2]);
      WrittenOf(cs[2..]);
      assert [Notice][..0] == [] && Written([Notice]) == [];
    } else {
      WrittenOf(cs);
    }
  }

  lemma RoundHandled(log: seq<Entry>, cs: seq<Chunk>)
    ensures Handled(log + RoundOf(cs)) == Handled(log) + cs
  {
    if |cs| > DROP_ABOVE {
      HandledRound(log, cs[..2], cs[2..]);
      Split(cs, 2);
    } else {
      WroteHandled(log, cs);
    }
  }

  lemma WroteHandled(log: seq<Entry>, cs: seq<Chunk>)
    ensures Handled(log + WroteAll(cs)) == Handled(log) + cs && cs[..|cs|] == cs
  {
    HandledAppend(log, WroteAll(cs));
    HandledAll(cs);
  }

  lemma WroteOneMore(cs: seq<Chunk>, k: nat)
    requires k < |cs|
    ensures WroteAll(cs[..k + 1]) == WroteAll(cs[..k]) + [Wrote(cs[k])]
  {
  }

  // ---------- rotating and filling ----------

  function RotatedShard(v: Shard): Shard {
    Shard([], None, v.buffers + [v.current])
  }

  lemma SameHeldSound(s: Shard, t: Shard, i: nat, handled: seq<Chunk>, toWrite: seq<Chunk>, appended: Text, mark: nat)
    requires Sound(s, i, handled, toWrite, appended, mark)
    requires t.Held() == s.Held() && |t.current| <= CAPACITY && (t.next.Some? ==> t.next.value == [])
    ensures Sound(t, i, handled, toWrite, appended, mark)
  {
  }

  lemma RotatedSound(v: Shard, i: nat, handled: seq<Chunk>, toWrite: seq<Chunk>, appended: Text, mark: nat)
    requires Sound(v, i, handled, toWrite, appended, mark)
    ensures Sound(RotatedShard(v), i, handled, toWrite, appended, mark)
  {
    Rotated(v, None);
    SameHeldSound(v, RotatedShard(v), i, handled, toWrite, appended, mark);
  }

  /** The part of a text that fits into a buffer that holds `held`. */
  function Fitting(held: Text, text: Text): Text
    requires |held| <= CAPACITY
  {
    text[..if |text| <= CAPACITY - |held| then |text| else CAPACITY - |held|]
  }

  lemma KeptIsFitting(current: Text, line: Text)
    requires |current| <= CAPACITY
    ensures Kept(current, line) ==
            if CAPACITY - |current| >= WrapInt32(|line|) then Fitting(current, line) else Fitting([], line)
  {
  }

  lemma FilledSound(v: Shard, line: Text, i: nat, handled: seq<Chunk>, toWrite: seq<Chunk>, appended: Text, mark: nat)
    requires Sound(v, i, handled, toWrite, appended, mark)
    ensures Sound(v.(current := Filled(v.current, line, CAPACITY)), i, handled, toWrite,
                  appended + Fitting(v.current, line), mark)
  {
    var kept := Fitting(v.current, line);
    Assoc(Concat(v.buffers), v.current, kept);
    AppendSound(v, v.(current := v.current + kept), kept, i, handled, toWrite, appended, mark);
  }

  lemma HandedSound(v: Shard, i: nat, handled: seq<Chunk>, toWrite: seq<Chunk>, appended: Text, mark: nat)
    requires Sound(v, i, handled, toWrite, appended, mark) && v.current == []
    ensures Sound(v.(buffers := []), i, handled, toWrite + Tagged(v.buffers, i), appended, |appended|)
  {
    assert Concat(v.buffers) + [] == Concat(v.buffers);
    CollectSound(v, v.buffers, i, handled, toWrite, appended, mark);
    assert v.(buffers := []).Held() == [];
  }
}
