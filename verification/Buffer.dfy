/**
 The network Buffer: two indices over a growable array, refining a plain byte sequence.

 `Contents()` is that sequence. Bytes before the reader index can be prepended to, bytes
 after the writer index can be written to, and space is made by growing the array or by
 moving the readable bytes down over the consumed ones.
 */
module NetBuffer {
  import opened Bytes

  const CHEAP_PREPEND := 8
  const INITIAL_SIZE := 1024
  const EXTRA_SIZE := 65536

  const CR: byte := 13
  const LF: byte := 10

  /** What a scatter read returned: an errno, or the bytes the kernel handed over. */
  datatype ReadResult = ReadError(errno: int) | ReadBytes(data: seq<byte>)

  /** The position of the first CR LF pair at or after `from`, if there is one. */
  predicate IsFirstCrlf(s: seq<byte>, from: nat, r: Option<nat>) {
    match r
    case None => forall i :: from <= i < |s| - 1 ==> !(s[i] == CR && s[i + 1] == LF)
    case Some(p) =>
      && from <= p < |s| - 1 && s[p] == CR && s[p + 1] == LF
      && forall i :: from <= i < p ==> !(s[i] == CR && s[i + 1] == LF)
  }

  class Buffer {
    var data: array<byte>
    var readerIndex: nat
    var writerIndex: nat

    ghost predicate Valid()
      reads this
    {
      readerIndex <= writerIndex <= data.Length && CHEAP_PREPEND <= data.Length
    }

    ghost function Contents(): (s: seq<byte>)
      requires Valid()
      reads this, data
      ensures |s| == ReadableBytes()
    {
      data[readerIndex..writerIndex]
    }

    constructor (initialSize: nat := INITIAL_SIZE)
      ensures Valid() && fresh(data) && Contents() == []
      ensures WritableBytes() == initialSize && PrependableBytes() == 8
    {
      data := new byte[CHEAP_PREPEND + initialSize](_ => 0);
      readerIndex, writerIndex := CHEAP_PREPEND, CHEAP_PREPEND;
    }

    function ReadableBytes(): nat
      requires Valid()
      reads this
    {
      writerIndex - readerIndex
    }

    function WritableBytes(): nat
      requires Valid()
      reads this
    {
      data.Length - writerIndex
    }

    function PrependableBytes(): nat
      reads this
    {
      readerIndex
    }

    method ReadableSpan() returns (s: seq<byte>)
      requires Valid()
      ensures s == Contents()
    {
      s := data[readerIndex..writerIndex];
    }

    // ---------- consuming ----------

    method Retrieve(len: nat)
      requires Valid() && len <= ReadableBytes()
      modifies this
      ensures Valid() && data == old(data)
      ensures Contents() == old(Contents())[len..]
      ensures PrependableBytes() == if Contents() == [] then 8 else old(PrependableBytes()) + len
    {
      Slices(data[..], readerIndex, writerIndex, len);
      if len < ReadableBytes() {
        readerIndex := readerIndex + len;
      } else {
        RetrieveAll();
      }
    }

    method RetrieveAll()
      requires Valid()
      modifies this
      ensures Valid() && data == old(data) && Contents() == [] && PrependableBytes() == 8
    {
      readerIndex := CHEAP_PREPEND;
      writerIndex := CHEAP_PREPEND;
    }

    method RetrieveAsString(len: nat) returns (s: seq<byte>)
      requires Valid() && len <= ReadableBytes()
      modifies this
      ensures Valid() && data == old(data)
      ensures s + Contents() == old(Contents()) && |s| == len
    {
      s := data[readerIndex..readerIndex + len];
      Slices(data[..], readerIndex, writerIndex, len);
      Retrieve(len);
    }

    method Unwrite(len: nat)
      requires Valid() && len <= ReadableBytes()
      modifies this
      ensures Valid() && data == old(data)
      ensures Contents() == old(Contents())[..|old(Contents())| - len]
    {
      Slices(data[..], readerIndex, writerIndex, ReadableBytes() - len);
      writerIndex := writerIndex - len;
    }

    // ---------- making space ----------

    method Grow(len: nat)
      requires Valid() && WritableBytes() < len
      modifies this
      ensures Valid() && fresh(data) && PrependableBytes() == old(PrependableBytes())
      ensures Contents() == old(Contents()) && WritableBytes() == len
    {
      var grown := new byte[writerIndex + len](_ => 0);
      forall i | 0 <= i < writerIndex {
        grown[i] := data[i];
      }
      data := grown;
    }

    /** Copies the readable bytes down in place, over themselves where the two ranges overlap. */
    method MoveDown()
      requires Valid() && CHEAP_PREPEND < readerIndex
      modifies this, data
      ensures Valid() && data == old(data) && PrependableBytes() == CHEAP_PREPEND
      ensures Contents() == old(Contents())
    {
      ghost var was := Contents();
      var readable := ReadableBytes();
      var i := 0;
      while i < readable
        invariant 0 <= i <= readable
        invariant forall k :: 0 <= k < i ==> data[CHEAP_PREPEND + k] == was[k]
        invariant forall k :: readerIndex + i <= k < writerIndex ==> data[k] == was[k - readerIndex]
        modifies data
      {
        data[CHEAP_PREPEND + i] := data[readerIndex + i];
        i := i + 1;
      }
      readerIndex := CHEAP_PREPEND;
      writerIndex := readerIndex + readable;
    }

    /**
     Called only when the writable bytes do not suffice. When the free bytes on both sides
     do, the readable bytes move down and nothing is allocated.
     */
    method MakeSpace(len: nat)
      requires Valid() && WritableBytes() < len
      modifies this, data
      ensures Valid() && (data == old(data) || fresh(data))
      ensures Contents() == old(Contents()) && WritableBytes() >= len
      ensures data == old(data) <==> old(WritableBytes() + PrependableBytes()) >= len + 8
      ensures data == old(data) ==> PrependableBytes() == 8
      ensures data != old(data) ==> PrependableBytes() == old(PrependableBytes()) && WritableBytes() == len
    {
      if WritableBytes() + PrependableBytes() < len + CHEAP_PREPEND {
        Grow(len);
      } else {
        MoveDown();
      }
    }

    method EnsureWritableBytes(len: nat)
      requires Valid()
      modifies this, data
      ensures Valid() && (data == old(data) || fresh(data))
      ensures Contents() == old(Contents()) && WritableBytes() >= len
      ensures PrependableBytes() == old(PrependableBytes()) || PrependableBytes() == CHEAP_PREPEND
      ensures old(WritableBytes()) >= len ==>
                data == old(data) && WritableBytes() == old(WritableBytes())
                && PrependableBytes() == old(PrependableBytes())
      ensures data == old(data) <==> old(WritableBytes()) >= len || old(WritableBytes() + PrependableBytes()) >= len + 8
      ensures data != old(data) ==> WritableBytes() == len
    {
      if WritableBytes() < len {
        MakeSpace(len);
      }
    }

    // ---------- writing ----------

    /** std::ranges::copy of `s` into the array at `at`. */
    method CopyInto(at: nat, s: seq<byte>)
      requires at + |s| <= data.Length
      modifies data
      ensures data[..] == Overlaid(old(data[..]), at, s)
    {
      var i := 0;
      while i < |s|
        invariant 0 <= i <= |s|
        invariant data[..at] == old(data[..at]) && data[at..at + i] == s[..i] && data[at + i..] == old(data[at + i..])
      {
        data[at + i] := s[i];
        i := i + 1;
      }
      assert data[..] == data[..at] + data[at..at + |s|] + data[at + |s|..];
    }

    method Append(s: seq<byte>)
      requires Valid()
      modifies this, data
      ensures Valid() && (data == old(data) || fresh(data))
      ensures Contents() == old(Contents()) + s
      ensures PrependableBytes() == old(PrependableBytes()) || PrependableBytes() == CHEAP_PREPEND
      ensures old(WritableBytes()) >= |s| ==>
                WritableBytes() == old(WritableBytes()) - |s| && PrependableBytes() == old(PrependableBytes())
    {
      EnsureWritableBytes(|s|);
      FillWritable(s);
      writerIndex := writerIndex + |s|;
    }

    method Prepend(s: seq<byte>)
      requires Valid() && |s| <= PrependableBytes()
      modifies this, data
      ensures Valid() && data == old(data)
      ensures Contents() == s + old(Contents())
      ensures PrependableBytes() == old(PrependableBytes()) - |s|
    {
      readerIndex := readerIndex - |s|;
      OverlaidBefore(data[..], readerIndex, s, writerIndex);
      CopyInto(readerIndex, s);
    }

    method Shrink(reserve: nat)
      requires Valid()
      modifies this
      ensures Valid() && fresh(data)
      ensures Contents() == old(Contents()) && PrependableBytes() == 8
      ensures WritableBytes() == if ReadableBytes() + reserve <= 1024 then 1024 - ReadableBytes() else reserve
    {
      var other := new Buffer();
      other.EnsureWritableBytes(ReadableBytes() + reserve);
      var readable := ReadableSpan();
      other.Append(readable);
      data, other.data := other.data, data;
      readerIndex, other.readerIndex := other.readerIndex, readerIndex;
      writerIndex, other.writerIndex := other.writerIndex, writerIndex;
    }

    // ---------- integers ----------

    method AppendInt(little: bool, x: int, n: nat)
      requires Valid() && Fits(x, n)
      modifies this, data
      ensures Valid() && (data == old(data) || fresh(data))
      ensures Contents() == old(Contents()) + EncodeInt(x, n)
      ensures PrependableBytes() == old(PrependableBytes()) || PrependableBytes() == CHEAP_PREPEND
    {
      var be := HostToNetwork(little, ToUnsigned(x, n), n);
      NetworkImageIsBigEndian(little, ToUnsigned(x, n), n);
      Append(MemoryImage(little, be, n));
    }

    method PrependInt(little: bool, x: int, n: nat)
      requires Valid() && Fits(x, n) && n <= PrependableBytes()
      modifies this, data
      ensures Valid() && data == old(data)
      ensures Contents() == EncodeInt(x, n) + old(Contents())
      ensures PrependableBytes() == old(PrependableBytes()) - n
    {
      var be := HostToNetwork(little, ToUnsigned(x, n), n);
      NetworkImageIsBigEndian(little, ToUnsigned(x, n), n);
      Prepend(MemoryImage(little, be, n));
    }

    method PeekInt(little: bool, n: nat) returns (x: int)
      requires Valid() && n <= ReadableBytes()
      ensures x == DecodeInt(Contents()[..n])
    {
      var image := data[readerIndex..readerIndex + n];
      Slices(data[..], readerIndex, writerIndex, n);
      NetworkValueIsBigEndian(little, image);
      x := ToSigned(HostToNetwork(little, FromMemory(little, image), n), n);
    }

    method ReadInt(little: bool, n: nat) returns (x: int)
      requires Valid() && n <= ReadableBytes()
      modifies this
      ensures Valid() && data == old(data)
      ensures x == DecodeInt(old(Contents())[..n]) && Contents() == old(Contents())[n..]
    {
      x := PeekInt(little, n);
      Retrieve(n);
    }

    // ---------- searching ----------

    method FindCrlf(from: nat) returns (r: Option<nat>)
      requires Valid() && from <= ReadableBytes()
      ensures IsFirstCrlf(Contents(), from, r)
    {
      var i := from;
      while i + 1 < ReadableBytes()
        invariant from <= i <= ReadableBytes()
        invariant forall k :: from <= k < i && k + 1 < ReadableBytes() ==>
                    !(Contents()[k] == CR && Contents()[k + 1] == LF)
      {
        assert Contents()[i] == data[readerIndex + i] && Contents()[i + 1] == data[readerIndex + i + 1];
        if data[readerIndex + i] == CR && data[readerIndex + i + 1] == LF {
          return Some(i);
        }
        i := i + 1;
      }
      return None;
    }

    // ---------- reading a descriptor ----------

    /** How many bytes one scatter read can deliver: the second segment is offered only to small buffers. */
    ghost function ReadLimit(): nat
      requires Valid()
      reads this
    {
      WritableBytes() + if WritableBytes() < 65536 then 65536 else 0
    }

    /** How many of the bytes read land in the writable segment. */
    ghost function InPlace(result: seq<byte>): (k: nat)
      requires Valid()
      reads this
      ensures k <= |result| && k <= WritableBytes()
    {
      if |result| <= WritableBytes() then |result| else WritableBytes()
    }

    /** readv: the kernel fills the writable bytes first and the extra segment with the rest. */
    method ScatterRead(extra: array<byte>, result: seq<byte>)
      requires Valid() && extra != data && extra.Length == EXTRA_SIZE
      requires |result| <= ReadLimit()
      modifies data, extra
      ensures data[readerIndex..writerIndex + InPlace(result)] == old(Contents()) + result[..InPlace(result)]
      ensures extra[..|result| - InPlace(result)] == result[InPlace(result)..]
    {
      var k := if |result| <= WritableBytes() then |result| else WritableBytes();
      FillWritable(result[..k]);
      FillExtra(extra, result[k..]);
    }

    method FillWritable(s: seq<byte>)
      requires Valid() && |s| <= WritableBytes()
      modifies data
      ensures data[readerIndex..writerIndex + |s|] == old(Contents()) + s
    {
      OverlaidAfter(data[..], writerIndex, s, readerIndex);
      CopyInto(writerIndex, s);
    }

    static method FillExtra(extra: array<byte>, s: seq<byte>)
      requires |s| <= extra.Length
      modifies extra
      ensures extra[..|s|] == s
    {
      var i := 0;
      while i < |s|
        invariant 0 <= i <= |s|
        invariant extra[..i] == s[..i]
      {
        extra[i] := s[i];
        i := i + 1;
      }
    }

    method ReadFd(kernel: ReadResult) returns (n: int, savedErrno: Option<int>)
      requires Valid()
      requires kernel.ReadBytes? ==> |kernel.data| <= ReadLimit()
      modifies this, data
      ensures Valid() && (data == old(data) || fresh(data))
      ensures kernel.ReadError? ==> n < 0 && savedErrno == Some(kernel.errno) && Contents() == old(Contents())
      ensures kernel.ReadBytes? ==>
                n == |kernel.data| && savedErrno == None && Contents() == old(Contents()) + kernel.data
    {
      var extra := new byte[EXTRA_SIZE](_ => 0);
      var writable := WritableBytes();
      if kernel.ReadError? {
        return -1, Some(kernel.errno);
      }
      n, savedErrno := |kernel.data|, None;
      ScatterRead(extra, kernel.data);
      if n <= writable {
        assert kernel.data[..n] == kernel.data;
        writerIndex := writerIndex + n;
      } else {
        writerIndex := data.Length;
        assert Contents() == old(Contents()) + kernel.data[..writable];
        Append(extra[..n - writable]);
        Assoc(old(Contents()), kernel.data[..writable], kernel.data[writable..]);
        Split(kernel.data, writable);
      }
    }
  }
}
