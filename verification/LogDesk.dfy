/**
 The buffers of AsyncLogging and where they are. Buffers are objects that move between shards,
 the pool, the spares and the writer, with whatever they last held until something resets
 them. `mem` says what each one holds and `home` where it is; a buffer has one home, so no two
 places share one.
 */
module LogDesk {
  import opened Bytes
  import opened AsyncLog

  /** A shard's pointers. */
  datatype Slots = Slots(current: FixedBuffer?, next: FixedBuffer?, buffers: seq<FixedBuffer>)

  datatype Place = AtShard(i: nat) | InPool | InSpare | InToWrite | InHand | Freed

  type Memory = map<FixedBuffer, Text>
  type Homes = map<FixedBuffer, Place>

  function Refs(s: Slots): seq<FixedBuffer> {
    (if s.current == null then [] else [s.current]) + (if s.next == null then [] else [s.next]) + s.buffers
  }

  lemma RefsAre(s: Slots)
    requires s.current != null
    ensures Refs(s) == if s.next == null then [s.current] + s.buffers else [s.current, s.next] + s.buffers
    ensures |Refs(s)| == |s.buffers| + if s.next == null then 1 else 2
    ensures Refs(s)[0] == s.current && (s.next != null ==> Refs(s)[1] == s.next)
    ensures forall k :: 0 <= k < |s.buffers| ==> s.buffers[k] == Refs(s)[|Refs(s)| - |s.buffers| + k]
  {
  }

  // ---------- homes ----------

  predicate Differ(bs: seq<FixedBuffer>, i: int, j: int) {
    0 <= i < j < |bs| ==> bs[i] != bs[j]
  }

  predicate HomeAt(bs: seq<FixedBuffer>, home: Homes, place: Place, k: int) {
    0 <= k < |bs| ==> bs[k] in home && home[bs[k]] == place
  }

  /** The buffers of one place are all different, and have their home there. */
  ghost predicate Homed(bs: seq<FixedBuffer>, home: Homes, place: Place) {
    && (forall i, j {:trigger Differ(bs, i, j)} :: Differ(bs, i, j))
    && (forall k {:trigger HomeAt(bs, home, place, k)} :: HomeAt(bs, home, place, k))
  }

  predicate KeptAt(home: Homes, home': Homes, from: set<Place>, b: FixedBuffer) {
    b in home && home[b] !in from ==> b in home' && home'[b] == home[b]
  }

  /** Only buffers at the places `from` have moved. */
  ghost predicate KeepsOthers(home: Homes, home': Homes, from: set<Place>) {
    forall b {:trigger KeptAt(home, home', from, b)} :: b in home ==> KeptAt(home, home', from, b)
  }

  lemma MemberHomed(bs: seq<FixedBuffer>, home: Homes, place: Place, b: FixedBuffer)
    requires Homed(bs, home, place) && b in bs
    ensures b in home && home[b] == place
  {
    var k :| 0 <= k < |bs| && bs[k] == b;
    assert HomeAt(bs, home, place, k);
  }

  lemma RowKept(bs: seq<FixedBuffer>, home: Homes, home': Homes, place: Place, from: set<Place>)
    requires Homed(bs, home, place) && KeepsOthers(home, home', from) && place !in from
    ensures Homed(bs, home', place)
  {
    forall k ensures HomeAt(bs, home', place, k) {
      assert HomeAt(bs, home, place, k);
      if 0 <= k < |bs| {
        assert KeptAt(home, home', from, bs[k]);
      }
    }
  }

  lemma OneMoved(home: Homes, b: FixedBuffer, to: Place, from: set<Place>)
    requires b in home ==> home[b] in from
    ensures KeepsOthers(home, home[b := to], from)
  {
    forall c | c in home ensures KeptAt(home, home[b := to], from, c) {
    }
  }

  lemma PushedHomed(bs: seq<FixedBuffer>, home: Homes, place: Place, b: FixedBuffer)
    requires Homed(bs, home, place) && (b in home ==> home[b] != place)
    ensures Homed(bs + [b], home[b := place], place)
  {
    var cs, home' := bs + [b], home[b := place];
    forall k ensures HomeAt(cs, home', place, k) {
      assert HomeAt(bs, home, place, k);
    }
    forall i, j ensures Differ(cs, i, j) {
      assert Differ(bs, i, j) && HomeAt(bs, home, place, i);
    }
  }

  lemma PoppedHomed(bs: seq<FixedBuffer>, home: Homes, place: Place, to: Place)
    requires Homed(bs, home, place) && bs != []
    ensures var b := bs[|bs| - 1]; b in home && home[b] == place && Homed(bs[..|bs| - 1], home[b := to], place)
  {
    var n := |bs| - 1;
    var cs := bs[..n];
    var home' := home[bs[n] := to];
    assert HomeAt(bs, home, place, n);
    forall k ensures HomeAt(cs, home', place, k) {
      assert HomeAt(bs, home, place, k) && Differ(bs, k, n);
    }
    forall i, j ensures Differ(cs, i, j) {
      assert Differ(bs, i, j);
    }
  }

  // ---------- the desk ----------

  /** Everything that holds buffers. */
  datatype Desk = Desk(shards: seq<Slots>, pool: seq<FixedBuffer>, spare: seq<FixedBuffer>, toWrite: seq<FixedBuffer>,
                       home: Homes)

  ghost predicate HomedShard(d: Desk, i: nat) {
    i < |d.shards| ==> d.shards[i].current != null && Homed(Refs(d.shards[i]), d.home, AtShard(i))
  }

  ghost predicate Placed(d: Desk) {
    && (forall i {:trigger HomedShard(d, i)} :: HomedShard(d, i))
    && Homed(d.pool, d.home, InPool) && Homed(d.spare, d.home, InSpare) && Homed(d.toWrite, d.home, InToWrite)
  }

  /** A desk is in order if the rows that changed are, and no buffer of the others has moved. */
  lemma Rearranged(d: Desk, e: Desk, from: set<Place>, shard: int)
    requires Placed(d) && KeepsOthers(d.home, e.home, from) && |e.shards| == |d.shards|
    requires forall k :: 0 <= k < |d.shards| && k != shard ==> e.shards[k] == d.shards[k] && AtShard(k) !in from
    requires 0 <= shard ==> HomedShard(e, shard)
    requires (e.pool == d.pool && InPool !in from) || Homed(e.pool, e.home, InPool)
    requires (e.spare == d.spare && InSpare !in from) || Homed(e.spare, e.home, InSpare)
    requires (e.toWrite == d.toWrite && InToWrite !in from) || Homed(e.toWrite, e.home, InToWrite)
    ensures Placed(e)
  {
    if InPool !in from {
      RowKept(d.pool, d.home, e.home, InPool, from);
    }
    if InSpare !in from {
      RowKept(d.spare, d.home, e.home, InSpare, from);
    }
    if InToWrite !in from {
      RowKept(d.toWrite, d.home, e.home, InToWrite, from);
    }
    forall k: nat ensures HomedShard(e, k) {
      assert HomedShard(d, k);
      if k < |d.shards| && k != shard {
        RowKept(Refs(d.shards[k]), d.home, e.home, AtShard(k), from);
      }
    }
  }

  /** A buffer that is at no place gets a home that is none either. */
  lemma HandMoved(d: Desk, b: FixedBuffer, to: Place)
    requires Placed(d) && (b in d.home ==> d.home[b] == InHand || d.home[b] == Freed)
    ensures Placed(d.(home := d.home[b := to]))
  {
    OneMoved(d.home, b, to, {InHand, Freed});
    Rearranged(d, d.(home := d.home[b := to]), {InHand, Freed}, -1);
  }

  lemma PoolPopped(d: Desk)
    requires Placed(d) && d.pool != []
    ensures var b := d.pool[|d.pool| - 1];
            b in d.home && d.home[b] == InPool
            && Placed(d.(pool := d.pool[..|d.pool| - 1], home := d.home[b := InHand]))
  {
    var b := d.pool[|d.pool| - 1];
    PoppedHomed(d.pool, d.home, InPool, InHand);
    OneMoved(d.home, b, InHand, {InPool});
    Rearranged(d, d.(pool := d.pool[..|d.pool| - 1], home := d.home[b := InHand]), {InPool}, -1);
  }

  lemma SparePopped(d: Desk)
    requires Placed(d) && d.spare != []
    ensures var b := d.spare[|d.spare| - 1];
            b in d.home && d.home[b] == InSpare
            && Placed(d.(spare := d.spare[..|d.spare| - 1], home := d.home[b := InHand]))
  {
    var b := d.spare[|d.spare| - 1];
    PoppedHomed(d.spare, d.home, InSpare, InHand);
    OneMoved(d.home, b, InHand, {InSpare});
    Rearranged(d, d.(spare := d.spare[..|d.spare| - 1], home := d.home[b := InHand]), {InSpare}, -1);
  }

  lemma PoolPushed(d: Desk, b: FixedBuffer)
    requires Placed(d) && b in d.home && d.home[b] == InHand
    ensures Placed(d.(pool := d.pool + [b], home := d.home[b := InPool]))
  {
    PushedHomed(d.pool, d.home, InPool, b);
    OneMoved(d.home, b, InPool, {InHand});
    Rearranged(d, d.(pool := d.pool + [b], home := d.home[b := InPool]), {InHand}, -1);
  }

  lemma SparePushed(d: Desk, b: FixedBuffer)
    requires Placed(d) && b in d.home && d.home[b] == InHand
    ensures Placed(d.(spare := d.spare + [b], home := d.home[b := InSpare]))
  {
    PushedHomed(d.spare, d.home, InSpare, b);
    OneMoved(d.home, b, InSpare, {InHand});
    Rearranged(d, d.(spare := d.spare + [b], home := d.home[b := InSpare]), {InHand}, -1);
  }

  /** A new shard with two buffers in hand. */
  lemma ShardOpened(d: Desk, b: FixedBuffer, c: FixedBuffer)
    requires Placed(d) && b != c && b in d.home && c in d.home && d.home[b] == d.home[c] == InHand
    ensures Placed(d.(shards := d.shards + [Slots(b, c, [])],
                      home := d.home[b := AtShard(|d.shards|)][c := AtShard(|d.shards|)]))
  {
    var n := |d.shards|;
    var home := d.home[b := AtShard(n)][c := AtShard(n)];
    var e := d.(shards := d.shards + [Slots(b, c, [])], home := home);
    forall x | x in d.home ensures KeptAt(d.home, home, {InHand}, x) {
    }
    RowKept(d.pool, d.home, home, InPool, {InHand});
    RowKept(d.spare, d.home, home, InSpare, {InHand});
    RowKept(d.toWrite, d.home, home, InToWrite, {InHand});
    assert Refs(Slots(b, c, [])) == [b, c];
    forall k ensures HomeAt([b, c], home, AtShard(n), k) {
    }
    forall i, j ensures Differ([b, c], i, j) {
    }
    forall k: nat ensures HomedShard(e, k) {
      assert HomedShard(d, k);
      if k < n {
        RowKept(Refs(d.shards[k]), d.home, home, AtShard(k), {InHand});
      }
    }
  }

  // ---------- rotating a shard's buffers ----------

  /** The pointers after the current buffer has joined the full ones and `b` has taken its place. */
  function RotatedSlots(s: Slots, b: FixedBuffer): Slots
    requires s.current != null
  {
    Slots(b, null, s.buffers + [s.current])
  }

  /** The order of a row does not matter. */
  lemma HomedSwap(a: seq<FixedBuffer>, b: seq<FixedBuffer>, c: seq<FixedBuffer>, home: Homes, place: Place)
    requires Homed(a + b + c, home, place)
    ensures Homed(b + a + c, home, place)
  {
    var bs, cs := a + b + c, b + a + c;
    forall k | 0 <= k < |cs| ensures cs[k] == bs[Swapped(|a|, |b|, k)] {
    }
    forall k ensures HomeAt(cs, home, place, k) {
      assert HomeAt(bs, home, place, Swapped(|a|, |b|, k));
    }
    forall i, j ensures Differ(cs, i, j) {
      assert Differ(bs, Swapped(|a|, |b|, i), Swapped(|a|, |b|, j))
             && Differ(bs, Swapped(|a|, |b|, j), Swapped(|a|, |b|, i));
    }
  }

  function Swapped(a: nat, b: nat, k: int): int {
    if k < b then k + a else if k < a + b then k - b else k
  }

  lemma NextRotated(s: Slots, home: Homes, place: Place)
    requires s.current != null && s.next != null && Homed(Refs(s), home, place)
    ensures Homed(Refs(RotatedSlots(s, s.next)), home, place)
  {
    var cur, rest := [s.current], [s.next] + s.buffers;
    assert Refs(s) == cur + rest + [];
    HomedSwap(cur, rest, [], home, place);
    assert Refs(RotatedSlots(s, s.next)) == rest + cur + [];
  }

  lemma OtherRotated(s: Slots, home: Homes, place: Place, b: FixedBuffer)
    requires s.current != null && s.next == null && Homed(Refs(s), home, place) && (b in home ==> home[b] != place)
    ensures Homed(Refs(RotatedSlots(s, b)), home[b := place], place)
  {
    var cur := [s.current];
    assert Refs(s) == cur + s.buffers + [];
    HomedSwap(cur, s.buffers, [], home, place);
    assert s.buffers + cur + [] == s.buffers + cur;
    PushedHomed(s.buffers + cur, home, place, b);
    assert s.buffers + cur + [b] == (s.buffers + cur) + [b] + [];
    HomedSwap(s.buffers + cur, [b], [], home[b := place], place);
    assert Refs(RotatedSlots(s, b)) == [b] + (s.buffers + cur) + [];
  }

  lemma NextAdded(s: Slots, home: Homes, place: Place, b: FixedBuffer)
    requires s.current != null && s.next == null && Homed(Refs(s), home, place) && (b in home ==> home[b] != place)
    ensures Homed(Refs(s.(next := b)), home[b := place], place)
  {
    var cur := [s.current];
    PushedHomed(Refs(s), home, place, b);
    assert Refs(s) + [b] == (cur + s.buffers) + [b] + [];
    HomedSwap(cur + s.buffers, [b], [], home[b := place], place);
    assert [b] + (cur + s.buffers) + [] == [b] + cur + s.buffers;
    HomedSwap([b], cur, s.buffers, home[b := place], place);
    assert Refs(s.(next := b)) == cur + [b] + s.buffers;
  }

  lemma NextPlaced(d: Desk, i: nat)
    requires Placed(d) && i < |d.shards| && d.shards[i].next != null
    ensures d.shards[i].current != null && d.shards[i].next in d.home
    ensures Placed(d.(shards := d.shards[i := RotatedSlots(d.shards[i], d.shards[i].next)]))
  {
    var s := d.shards[i];
    assert HomedShard(d, i);
    RefsAre(s);
    assert HomeAt(Refs(s), d.home, AtShard(i), 1);
    NextRotated(s, d.home, AtShard(i));
    var e := d.(shards := d.shards[i := RotatedSlots(s, s.next)]);
    forall b | b in d.home ensures KeptAt(d.home, e.home, {}, b) {
    }
    Rearranged(d, e, {}, i);
  }

  lemma OtherPlaced(d: Desk, i: nat, b: FixedBuffer)
    requires Placed(d) && i < |d.shards| && d.shards[i].next == null && b in d.home && d.home[b] == InHand
    ensures d.shards[i].current != null
    ensures Placed(d.(shards := d.shards[i := RotatedSlots(d.shards[i], b)], home := d.home[b := AtShard(i)]))
  {
    var s := d.shards[i];
    assert HomedShard(d, i);
    OtherRotated(s, d.home, AtShard(i), b);
    OneMoved(d.home, b, AtShard(i), {InHand});
    Rearranged(d, d.(shards := d.shards[i := RotatedSlots(s, b)], home := d.home[b := AtShard(i)]), {InHand}, i);
  }

  /** A next buffer for a shard that has none. */
  lemma NextGiven(d: Desk, i: nat, b: FixedBuffer)
    requires Placed(d) && i < |d.shards| && d.shards[i].next == null && b in d.home && d.home[b] == InHand
    ensures Placed(d.(shards := d.shards[i := d.shards[i].(next := b)], home := d.home[b := AtShard(i)]))
  {
    var s := d.shards[i];
    assert HomedShard(d, i);
    NextAdded(s, d.home, AtShard(i), b);
    OneMoved(d.home, b, AtShard(i), {InHand});
    Rearranged(d, d.(shards := d.shards[i := s.(next := b)], home := d.home[b := AtShard(i)]), {InHand}, i);
  }

  // ---------- a shard's full buffers for the writer ----------

  function GivenHomes(home: Homes, bs: seq<FixedBuffer>): Homes {
    home + map b | b in bs :: InToWrite
  }

  lemma GivenToWriter(toWrite: seq<FixedBuffer>, bs: seq<FixedBuffer>, home: Homes, i: nat)
    requires Homed(toWrite, home, InToWrite) && Homed(bs, home, AtShard(i))
    ensures Homed(toWrite + bs, GivenHomes(home, bs), InToWrite)
  {
    var cs, n := toWrite + bs, |toWrite|;
    forall k ensures HomeAt(cs, GivenHomes(home, bs), InToWrite, k) {
      assert HomeAt(toWrite, home, InToWrite, k);
      if n <= k < |cs| {
        assert cs[k] == bs[k - n] && bs[k - n] in bs;
      }
    }
    forall i', j ensures Differ(cs, i', j) {
      assert Differ(toWrite, i', j) && Differ(bs, i' - n, j - n);
      assert HomeAt(toWrite, home, InToWrite, i') && HomeAt(bs, home, AtShard(i), j - n);
    }
  }

  /** A row cut in two: the back, and the front once the back has been given to the writer. */
  lemma BackHomed(front: seq<FixedBuffer>, back: seq<FixedBuffer>, home: Homes, place: Place)
    requires Homed(front + back, home, place)
    ensures Homed(back, home, place)
  {
    var bs, n := front + back, |front|;
    forall k ensures HomeAt(back, home, place, k) {
      assert HomeAt(bs, home, place, n + k);
    }
    forall p, q ensures Differ(back, p, q) {
      assert Differ(bs, n + p, n + q);
    }
  }

  lemma FrontHomed(front: seq<FixedBuffer>, back: seq<FixedBuffer>, home: Homes, place: Place)
    requires Homed(front + back, home, place)
    ensures Homed(front, GivenHomes(home, back), place)
  {
    var bs, n, home' := front + back, |front|, GivenHomes(home, back);
    forall k ensures HomeAt(front, home', place, k) {
      assert HomeAt(bs, home, place, k);
      if 0 <= k < n {
        NotInBack(front, back, home, place, k);
      }
    }
    forall p, q ensures Differ(front, p, q) {
      assert Differ(bs, p, q);
    }
  }

  lemma NotInBack(front: seq<FixedBuffer>, back: seq<FixedBuffer>, home: Homes, place: Place, k: nat)
    requires Homed(front + back, home, place) && k < |front|
    ensures front[k] !in back
  {
    var bs, n := front + back, |front|;
    forall m | 0 <= m < |back| ensures back[m] != front[k] {
      assert Differ(bs, k, n + m) && bs[k] == front[k] && bs[n + m] == back[m];
    }
  }

  lemma GivenFront(s: Slots, home: Homes, place: Place)
    requires s.current != null && Homed(Refs(s), home, place)
    ensures Homed(s.buffers, home, place) && Homed(Refs(s.(buffers := [])), GivenHomes(home, s.buffers), place)
  {
    var front := Refs(s.(buffers := []));
    assert Refs(s) == front + s.buffers;
    BackHomed(front, s.buffers, home, place);
    FrontHomed(front, s.buffers, home, place);
  }

  lemma BuffersGiven(d: Desk, i: nat)
    requires Placed(d) && i < |d.shards|
    ensures var bs := d.shards[i].buffers;
            && Placed(d.(shards := d.shards[i := d.shards[i].(buffers := [])], toWrite := d.toWrite + bs,
                         home := GivenHomes(d.home, bs)))
            && GivenHomes(d.home, bs).Keys == d.home.Keys
  {
    var bs, home := d.shards[i].buffers, GivenHomes(d.home, d.shards[i].buffers);
    assert HomedShard(d, i);
    GivenFront(d.shards[i], d.home, AtShard(i));
    GivenToWriter(d.toWrite, bs, d.home, i);
    forall b | b in bs ensures b in d.home && d.home[b] == AtShard(i) {
      MemberHomed(bs, d.home, AtShard(i), b);
    }
    forall b | b in d.home ensures KeptAt(d.home, home, {AtShard(i)}, b) {
    }
    Rearranged(d, d.(shards := d.shards[i := d.shards[i].(buffers := [])], toWrite := d.toWrite + bs, home := home),
               {AtShard(i)}, i);
  }

  // ---------- after writing ----------

  /** The written buffers that become spares, and the others, which are freed. */
  function RefillHomes(home: Homes, bs: seq<FixedBuffer>, n: nat): Homes
    requires n <= |bs|
  {
    home + map b | b in bs :: if b in bs[..n] then InSpare else Freed
  }

  lemma RefillSpare(spare: seq<FixedBuffer>, bs: seq<FixedBuffer>, home: Homes, n: nat)
    requires Homed(spare, home, InSpare) && Homed(bs, home, InToWrite) && n <= |bs|
    ensures Homed(spare + bs[..n], RefillHomes(home, bs, n), InSpare)
  {
    var cs, m, home' := spare + bs[..n], |spare|, RefillHomes(home, bs, n);
    forall k ensures HomeAt(cs, home', InSpare, k) {
      assert HomeAt(spare, home, InSpare, k);
      if 0 <= k < m && spare[k] in bs {
        MemberHomed(bs, home, InToWrite, spare[k]);
      }
      if m <= k < |cs| {
        assert cs[k] == bs[..n][k - m] && bs[k - m] in bs;
      }
    }
    forall i, j ensures Differ(cs, i, j) {
      assert Differ(spare, i, j) && Differ(bs, i - m, j - m);
      assert HomeAt(spare, home, InSpare, i) && HomeAt(bs, home, InToWrite, j - m);
    }
  }

  lemma Refilled(d: Desk, n: nat)
    requires Placed(d) && n <= |d.toWrite|
    ensures Placed(d.(spare := d.spare + d.toWrite[..n], toWrite := [], home := RefillHomes(d.home, d.toWrite, n)))
    ensures RefillHomes(d.home, d.toWrite, n).Keys == d.home.Keys
  {
    var home := RefillHomes(d.home, d.toWrite, n);
    RefillSpare(d.spare, d.toWrite, d.home, n);
    forall b | b in d.toWrite ensures b in d.home && d.home[b] == InToWrite {
      MemberHomed(d.toWrite, d.home, InToWrite, b);
    }
    forall b | b in d.home ensures KeptAt(d.home, home, {InToWrite}, b) {
    }
    EmptyHomed(home, InToWrite);
    Rearranged(d, d.(spare := d.spare + d.toWrite[..n], toWrite := [], home := home), {InToWrite}, -1);
  }

  lemma EmptyHomed(home: Homes, place: Place)
    ensures Homed([], home, place)
  {
    forall k ensures HomeAt([], home, place, k) {
    }
    forall i, j ensures Differ([], i, j) {
    }
  }

  /** The writer's buffers, all taken out to be recycled. */
  function TakenHomes(home: Homes, bs: seq<FixedBuffer>): Homes {
    home + map b | b in bs :: InHand
  }

  lemma TakenHomed(spare: seq<FixedBuffer>, toWrite: seq<FixedBuffer>, home: Homes)
    requires Homed(spare, home, InSpare) && Homed(toWrite, home, InToWrite)
    ensures Homed(spare + toWrite, TakenHomes(home, spare + toWrite), InHand)
    ensures forall b :: b in spare + toWrite ==> b in home && (home[b] == InSpare || home[b] == InToWrite)
  {
    var bs, n := spare + toWrite, |spare|;
    forall k ensures HomeAt(bs, TakenHomes(home, bs), InHand, k) {
      if 0 <= k < |bs| {
        assert bs[k] in bs;
      }
    }
    forall i, j ensures Differ(bs, i, j) {
      assert Differ(spare, i, j) && Differ(toWrite, i - n, j - n);
      assert HomeAt(spare, home, InSpare, i) && HomeAt(toWrite, home, InToWrite, j - n);
    }
    forall b | b in bs ensures b in home && (home[b] == InSpare || home[b] == InToWrite) {
      if b in spare {
        MemberHomed(spare, home, InSpare, b);
      } else {
        MemberHomed(toWrite, home, InToWrite, b);
      }
    }
  }

  lemma AllTaken(d: Desk)
    requires Placed(d)
    ensures var bs := d.spare + d.toWrite;
            && Placed(d.(spare := [], toWrite := [], home := TakenHomes(d.home, bs)))
            && Homed(bs, TakenHomes(d.home, bs), InHand) && TakenHomes(d.home, bs).Keys == d.home.Keys
  {
    var bs := d.spare + d.toWrite;
    var home := TakenHomes(d.home, bs);
    TakenHomed(d.spare, d.toWrite, d.home);
    forall b | b in d.home ensures KeptAt(d.home, home, {InSpare, InToWrite}, b) {
    }
    EmptyHomed(home, InSpare);
    EmptyHomed(home, InToWrite);
    Rearranged(d, d.(spare := [], toWrite := [], home := home), {InSpare, InToWrite}, -1);
  }

  lemma FirstInHand(bs: seq<FixedBuffer>, home: Homes, place: Place)
    requires bs != [] && Homed(bs, home, InHand)
    ensures bs[0] in home && home[bs[0]] == InHand && Homed(bs[1..], home[bs[0] := place], InHand)
  {
    var rest, home' := bs[1..], home[bs[0] := place];
    assert HomeAt(bs, home, InHand, 0);
    forall k ensures HomeAt(rest, home', InHand, k) {
      assert HomeAt(bs, home, InHand, k + 1) && Differ(bs, 0, k + 1);
    }
    forall i, j ensures Differ(rest, i, j) {
      assert Differ(bs, i + 1, j + 1);
    }
  }

  // ---------- no sharing ----------

  /** The spots of a desk, and the buffer at each. */
  datatype Spot = Current(i: nat) | Next(i: nat) | Full(i: nat, k: nat) | Pooled(k: nat) | Spare(k: nat)
      | Collected(k: nat)

  function At(d: Desk, p: Spot): FixedBuffer? {
    match p
    case Current(i) => if i < |d.shards| then d.shards[i].current else null
    case Next(i) => if i < |d.shards| then d.shards[i].next else null
    case Full(i, k) => if i < |d.shards| && k < |d.shards[i].buffers| then d.shards[i].buffers[k] else null
    case Pooled(k) => if k < |d.pool| then d.pool[k] else null
    case Spare(k) => if k < |d.spare| then d.spare[k] else null
    case Collected(k) => if k < |d.toWrite| then d.toWrite[k] else null
  }

  function PlaceOf(p: Spot): Place {
    match p
    case Current(i) => AtShard(i)
    case Next(i) => AtShard(i)
    case Full(i, _) => AtShard(i)
    case Pooled(_) => InPool
    case Spare(_) => InSpare
    case Collected(_) => InToWrite
  }

  function Row(d: Desk, place: Place): seq<FixedBuffer> {
    match place
    case AtShard(i) => if i < |d.shards| then Refs(d.shards[i]) else []
    case InPool => d.pool
    case InSpare => d.spare
    case InToWrite => d.toWrite
    case _ => []
  }

  /** Where the buffer at a spot stands among the buffers of its place. */
  function Rank(d: Desk, p: Spot): nat {
    match p
    case Current(_) => 0
    case Next(_) => 1
    case Full(i, k) => k + if i < |d.shards| && d.shards[i].next == null then 1 else 2
    case Pooled(k) => k
    case Spare(k) => k
    case Collected(k) => k
  }

  lemma RefAt(s: Slots, k: nat)
    requires s.current != null && k < |s.buffers|
    ensures var n := k + if s.next == null then 1 else 2; n < |Refs(s)| && Refs(s)[n] == s.buffers[k]
  {
  }

  lemma SpotRanked(d: Desk, p: Spot)
    requires Placed(d) && At(d, p) != null
    ensures Homed(Row(d, PlaceOf(p)), d.home, PlaceOf(p))
    ensures Rank(d, p) < |Row(d, PlaceOf(p))| && Row(d, PlaceOf(p))[Rank(d, p)] == At(d, p)
  {
    if PlaceOf(p).AtShard? {
      assert HomedShard(d, p.i);
      if p.Full? {
        RefAt(d.shards[p.i], p.k);
      }
    }
  }

  /** No two spots share a buffer. */
  lemma NothingShared(d: Desk, p: Spot, q: Spot)
    requires Placed(d) && At(d, p) != null && At(d, p) == At(d, q)
    ensures p == q
  {
    SpotRanked(d, p);
    SpotRanked(d, q);
    var row, i, j := Row(d, PlaceOf(p)), Rank(d, p), Rank(d, q);
    assert HomeAt(row, d.home, PlaceOf(p), i) && HomeAt(Row(d, PlaceOf(q)), d.home, PlaceOf(q), j);
    assert Differ(row, i, j) && Differ(row, j, i);
  }
}
