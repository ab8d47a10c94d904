/**
 byteSwap16, byteSwap32 and byteSwap64 on machine words, as Endian.h writes them. A word is
 read as its octets, least significant first; its value is the number those octets stand for.
 */
module Words {
  import opened Bytes

  function ByteSwap16(v: bv16): bv16 {
    (v << 8) | (v >> 8)
  }

  function ByteSwap32(v: bv32): bv32 {
    ((v & 0x000000FF) << 24) | ((v & 0x0000FF00) << 8) | ((v & 0x00FF0000) >> 8) | ((v & 0xFF000000) >> 24)
  }

  function ByteSwap64(v: bv64): bv64 {
    ((v & 0x00000000000000FF) << 56)
    | ((v & 0x000000000000FF00) << 40)
    | ((v & 0x0000000000FF0000) << 24)
    | ((v & 0x00000000FF000000) << 8)
    | ((v & 0x000000FF00000000) >> 8)
    | ((v & 0x0000FF0000000000) >> 24)
    | ((v & 0x00FF000000000000) >> 40)
    | ((v & 0xFF00000000000000) >> 56)
  }

  function Octet(b: bv8): byte {
    b as int
  }

  /** The octets of a word, least significant first. */
  function Parts16(v: bv16): (s: seq<bv8>)
    ensures |s| == 2
  {
    [(v & 0xFF) as bv8, (v >> 8) as bv8]
  }

  function Parts32(v: bv32): (s: seq<bv8>)
    ensures |s| == 4
  {
    [(v & 0xFF) as bv8, ((v >> 8) & 0xFF) as bv8, ((v >> 16) & 0xFF) as bv8, (v >> 24) as bv8]
  }

  function Parts64(v: bv64): (s: seq<bv8>)
    ensures |s| == 8
  {
    [(v & 0xFF) as bv8, ((v >> 8) & 0xFF) as bv8, ((v >> 16) & 0xFF) as bv8, ((v >> 24) & 0xFF) as bv8,
     ((v >> 32) & 0xFF) as bv8, ((v >> 40) & 0xFF) as bv8, ((v >> 48) & 0xFF) as bv8, (v >> 56) as bv8]
  }

  function Octets(parts: seq<bv8>): (s: seq<byte>)
    ensures |s| == |parts| && forall k :: 0 <= k < |s| ==> s[k] == Octet(parts[k])
  {
    seq(|parts|, k requires 0 <= k < |parts| => Octet(parts[k]))
  }

  /** The number a word stands for. */
  function Value(parts: seq<bv8>): nat {
    FromLittleEndian(Octets(parts))
  }

  predicate Mirrored(p: seq<bv8>, q: seq<bv8>) {
    |p| == |q| && forall k :: 0 <= k < |q| ==> q[k] == p[|p| - 1 - k]
  }

  lemma OctetsMirrored(p: seq<bv8>, q: seq<bv8>)
    requires Mirrored(p, q)
    ensures Octets(q) == Reversed(Octets(p))
  {
  }

  lemma SwapOfOctets(s: seq<byte>)
    ensures FromLittleEndian(Reversed(s)) == ByteSwap(FromLittleEndian(s), |s|)
  {
    ByteSwapReverses(FromLittleEndian(s), |s|);
    LittleEndianOfValue(s);
    FromLittleReversed(s);
  }

  /** Words whose octets are each other's in reverse have byte-swapped values. */
  lemma SwapOfValue(p: seq<bv8>, q: seq<bv8>)
    requires Mirrored(p, q)
    ensures Octets(q) == Reversed(Octets(p))
    ensures Value(q) == ByteSwap(Value(p), |p|)
  {
    OctetsMirrored(p, q);
    SwapOfOctets(Octets(p));
  }

  lemma Bits16(v: bv16, w: bv16)
    requires w == ByteSwap16(v)
    ensures (w & 0xFF) as bv8 == (v >> 8) as bv8
    ensures (w >> 8) as bv8 == (v & 0xFF) as bv8
  {
  }

  lemma Bits32(v: bv32, w: bv32)
    requires w == ByteSwap32(v)
    ensures (w & 0xFF) as bv8 == (v >> 24) as bv8
    ensures ((w >> 8) & 0xFF) as bv8 == ((v >> 16) & 0xFF) as bv8
    ensures ((w >> 16) & 0xFF) as bv8 == ((v >> 8) & 0xFF) as bv8
    ensures (w >> 24) as bv8 == (v & 0xFF) as bv8
  {
  }

  lemma Bits64(v: bv64, w: bv64)
    requires w == ByteSwap64(v)
    ensures (w & 0xFF) as bv8 == (v >> 56) as bv8
    ensures ((w >> 8) & 0xFF) as bv8 == ((v >> 48) & 0xFF) as bv8
    ensures ((w >> 16) & 0xFF) as bv8 == ((v >> 40) & 0xFF) as bv8
    ensures ((w >> 24) & 0xFF) as bv8 == ((v >> 32) & 0xFF) as bv8
    ensures ((w >> 32) & 0xFF) as bv8 == ((v >> 24) & 0xFF) as bv8
    ensures ((w >> 40) & 0xFF) as bv8 == ((v >> 16) & 0xFF) as bv8
    ensures ((w >> 48) & 0xFF) as bv8 == ((v >> 8) & 0xFF) as bv8
    ensures (w >> 56) as bv8 == (v & 0xFF) as bv8
  {
  }

  /** The source's expression reverses the octets, and so swaps the bytes of the value. */
  lemma Swaps16(v: bv16)
    ensures Octets(Parts16(ByteSwap16(v))) == Reversed(Octets(Parts16(v)))
    ensures Value(Parts16(ByteSwap16(v))) == ByteSwap(Value(Parts16(v)), |Parts16(v)|)
  {
    Mirrors16(v, ByteSwap16(v));
    SwapOfValue(Parts16(v), Parts16(ByteSwap16(v)));
  }

  lemma Mirrors16(v: bv16, w: bv16)
    requires w == ByteSwap16(v)
    ensures Mirrored(Parts16(v), Parts16(w))
  {
    Bits16(v, w);
  }

  /** The source's expression reverses the octets, and so swaps the bytes of the value. */
  lemma Swaps32(v: bv32)
    ensures Octets(Parts32(ByteSwap32(v))) == Reversed(Octets(Parts32(v)))
    ensures Value(Parts32(ByteSwap32(v))) == ByteSwap(Value(Parts32(v)), |Parts32(v)|)
  {
    Bits32(v, ByteSwap32(v));
    Mirrors32(v, ByteSwap32(v));
    SwapOfValue(Parts32(v), Parts32(ByteSwap32(v)));
  }

  lemma Mirrors32(v: bv32, w: bv32)
    requires (w & 0xFF) as bv8 == (v >> 24) as bv8
    requires ((w >> 8) & 0xFF) as bv8 == ((v >> 16) & 0xFF) as bv8
    requires ((w >> 16) & 0xFF) as bv8 == ((v >> 8) & 0xFF) as bv8
    requires (w >> 24) as bv8 == (v & 0xFF) as bv8
    ensures Mirrored(Parts32(v), Parts32(w))
  {
    var p, q := Parts32(v), Parts32(w);
    Row4(p, q);
  }

  lemma Row4(p: seq<bv8>, q: seq<bv8>)
    requires |p| == |q| == 4
    requires q[0] == p[3] && q[1] == p[2] && q[2] == p[1] && q[3] == p[0]
    ensures Mirrored(p, q)
  {
  }

  /** The source's expression reverses the octets, and so swaps the bytes of the value. */
  lemma Swaps64(v: bv64)
    ensures Octets(Parts64(ByteSwap64(v))) == Reversed(Octets(Parts64(v)))
    ensures Value(Parts64(ByteSwap64(v))) == ByteSwap(Value(Parts64(v)), |Parts64(v)|)
  {
    Bits64(v, ByteSwap64(v));
    Mirrors64(v, ByteSwap64(v));
    SwapOfValue(Parts64(v), Parts64(ByteSwap64(v)));
  }

  lemma Mirrors64(v: bv64, w: bv64)
    requires (w & 0xFF) as bv8 == (v >> 56) as bv8
    requires ((w >> 8) & 0xFF) as bv8 == ((v >> 48) & 0xFF) as bv8
    requires ((w >> 16) & 0xFF) as bv8 == ((v >> 40) & 0xFF) as bv8
    requires ((w >> 24) & 0xFF) as bv8 == ((v >> 32) & 0xFF) as bv8
    requires ((w >> 32) & 0xFF) as bv8 == ((v >> 24) & 0xFF) as bv8
    requires ((w >> 40) & 0xFF) as bv8 == ((v >> 16) & 0xFF) as bv8
    requires ((w >> 48) & 0xFF) as bv8 == ((v >> 8) & 0xFF) as bv8
    requires (w >> 56) as bv8 == (v & 0xFF) as bv8
    ensures Mirrored(Parts64(v), Parts64(w))
  {
    var p, q := Parts64(v), Parts64(w);
    Row8(p, q);
  }

  lemma Row8(p: seq<bv8>, q: seq<bv8>)
    requires |p| == |q| == 8
    requires q[0] == p[7] && q[1] == p[6] && q[2] == p[5] && q[3] == p[4] && q[4] == p[3] && q[5] == p[2]
             && q[6] == p[1] && q[7] == p[0]
    ensures Mirrored(p, q)
  {
  }
}
