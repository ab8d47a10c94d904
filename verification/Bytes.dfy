/**
 Bytes, and the integer layouts of Endian.h: host memory images in either byte order,
 byte swapping, and network (big-endian) order.
 */
module Bytes {

  type byte = b: int | 0 <= b < 256

  datatype Option<+T> = None | Some(value: T)

  function Pow256(n: nat): (p: nat)
    ensures p > 0
  {
    if n == 0 then 1 else 256 * Pow256(n - 1)
  }

  // ---------- layouts ----------

  /** The `n` low bytes of `v`, least significant first. */
  function LittleEndian(v: nat, n: nat): (s: seq<byte>)
    ensures |s| == n
  {
    if n == 0 then [] else [v % 256] + LittleEndian(v / 256, n - 1)
  }

  /** The `n` low bytes of `v`, most significant first. */
  function BigEndian(v: nat, n: nat): (s: seq<byte>)
    ensures |s| == n
  {
    if n == 0 then [] else BigEndian(v / 256, n - 1) + [v % 256]
  }

  function FromLittleEndian(s: seq<byte>): (v: nat)
    ensures v < Pow256(|s|)
  {
    if s == [] then 0 else s[0] + 256 * FromLittleEndian(s[1..])
  }

  function FromBigEndian(s: seq<byte>): (v: nat)
    ensures v < Pow256(|s|)
  {
    if s == [] then 0 else 256 * FromBigEndian(s[..|s| - 1]) + s[|s| - 1]
  }

  function Reversed(s: seq<byte>): (r: seq<byte>)
    ensures |r| == |s|
    ensures forall i :: 0 <= i < |s| ==> r[i] == s[|s| - 1 - i]
  {
    if s == [] then [] else Reversed(s[1..]) + [s[0]]
  }

  lemma {:induction false} BigEndianRoundTrip(v: nat, n: nat)
    requires v < Pow256(n)
    ensures FromBigEndian(BigEndian(v, n)) == v
    decreases n
  {
    if n > 0 {
      BigEndianRoundTrip(v / 256, n - 1);
      assert BigEndian(v, n)[..n - 1] == BigEndian(v / 256, n - 1);
    }
  }

  lemma {:induction false} BigEndianOfValue(s: seq<byte>)
    ensures BigEndian(FromBigEndian(s), |s|) == s
  {
    if s != [] {
      var w := FromBigEndian(s[..|s| - 1]);
      assert (256 * w + s[|s| - 1]) / 256 == w && (256 * w + s[|s| - 1]) % 256 == s[|s| - 1];
      BigEndianOfValue(s[..|s| - 1]);
    }
  }

  /** Different byte strings of one length are different numbers. */
  lemma BigEndianInjective(s: seq<byte>, t: seq<byte>)
    requires |s| == |t| && FromBigEndian(s) == FromBigEndian(t)
    ensures s == t
  {
    BigEndianOfValue(s);
    BigEndianOfValue(t);
  }

  lemma {:induction false} BigIsReversedLittle(v: nat, n: nat)
    ensures BigEndian(v, n) == Reversed(LittleEndian(v, n))
    decreases n
  {
    if n > 0 {
      BigIsReversedLittle(v / 256, n - 1);
      assert LittleEndian(v, n)[1..] == LittleEndian(v / 256, n - 1);
    }
  }

  lemma {:induction false} LittleEndianOfValue(s: seq<byte>)
    ensures LittleEndian(FromLittleEndian(s), |s|) == s
  {
    if s != [] {
      var w := FromLittleEndian(s[1..]);
      assert (s[0] + 256 * w) / 256 == w && (s[0] + 256 * w) % 256 == s[0];
      LittleEndianOfValue(s[1..]);
    }
  }

  lemma {:induction false} FromLittleReversed(s: seq<byte>)
    ensures FromLittleEndian(Reversed(s)) == FromBigEndian(s)
  {
    if s != [] {
      var t := s[..|s| - 1];
      assert Reversed(s)[1..] == Reversed(t);
      FromLittleReversed(t);
    }
  }

  // ---------- Endian.h ----------

  /**
   What byteSwap16/32/64 are for, with n = 2, 4, 8: the lowest byte moves up to the top place,
   the next one to the place below, and so on. Words has the source's expressions for it.
   */
  function ByteSwap(v: nat, n: nat): nat {
    if n == 0 then 0 else v % 256 * Pow256(n - 1) + ByteSwap(v / 256, n - 1)
  }

  /** hostToNetwork and networkToHost are the same function; `little` says how the host stores integers. */
  function HostToNetwork(little: bool, v: nat, n: nat): nat
  {
    if little then ByteSwap(v, n) else v
  }

  /** What memcpy sees of an `n`-byte unsigned integer, and the reverse. */
  function MemoryImage(little: bool, v: nat, n: nat): (s: seq<byte>)
    ensures |s| == n
  {
    if little then LittleEndian(v, n) else BigEndian(v, n)
  }

  function FromMemory(little: bool, s: seq<byte>): nat {
    if little then FromLittleEndian(s) else FromBigEndian(s)
  }

  lemma {:induction false} BigEndianCons(b: byte, s: seq<byte>)
    ensures FromBigEndian([b] + s) == b * Pow256(|s|) + FromBigEndian(s)
  {
    if s != [] {
      var t := s[..|s| - 1];
      assert ([b] + s)[..|s|] == [b] + t;
      BigEndianCons(b, t);
      assert 256 * (b * Pow256(|t|)) == b * Pow256(|s|);
    }
  }

  /** Swapping bytes is reading the little-endian image backwards. */
  lemma {:induction false} ByteSwapReverses(v: nat, n: nat)
    ensures ByteSwap(v, n) == FromBigEndian(LittleEndian(v, n))
    decreases n
  {
    if n > 0 {
      ByteSwapReverses(v / 256, n - 1);
      BigEndianCons(v % 256, LittleEndian(v / 256, n - 1));
    }
  }

  /** Whatever the host's byte order, an integer passed through hostToNetwork lies in memory big-endian. */
  lemma NetworkImageIsBigEndian(little: bool, v: nat, n: nat)
    ensures MemoryImage(little, HostToNetwork(little, v, n), n) == BigEndian(v, n)
  {
    if little {
      var s := LittleEndian(v, n);
      ByteSwapReverses(v, n);
      FromLittleReversed(s);
      LittleEndianOfValue(Reversed(s));
      BigIsReversedLittle(v, n);
    }
  }

  /** And reading those bytes back through networkToHost gives the big-endian value. */
  lemma NetworkValueIsBigEndian(little: bool, s: seq<byte>)
    ensures HostToNetwork(little, FromMemory(little, s), |s|) == FromBigEndian(s)
  {
    if little {
      var v := FromLittleEndian(s);
      LittleEndianOfValue(s);
      ByteSwapReverses(v, |s|);
    }
  }

  // ---------- signed integers ----------

  predicate Fits(x: int, n: nat) {
    0 - Pow256(n) <= 2 * x < Pow256(n)
  }

  /** static_cast between the signed and unsigned n-byte types. */
  function ToUnsigned(x: int, n: nat): (u: nat)
    requires Fits(x, n)
    ensures u < Pow256(n)
  {
    if x < 0 then x + Pow256(n) else x
  }

  function ToSigned(u: nat, n: nat): (x: int)
    requires u < Pow256(n)
    ensures Fits(x, n)
  {
    if 2 * u < Pow256(n) then u else u - Pow256(n)
  }

  /** static_cast of a size to int32_t. */
  function WrapInt32(n: nat): (x: int)
    ensures Fits(x, 4)
  {
    ToSigned(n % Pow256(4), 4)
  }

  /** The cast keeps the value modulo 2^32, in the signed range. */
  lemma WrapInt32Is(n: nat)
    ensures -0x8000_0000 <= WrapInt32(n) < 0x8000_0000 && (n - WrapInt32(n)) % 0x1_0000_0000 == 0
    ensures n < 0x8000_0000 ==> WrapInt32(n) == n
  {
    assert Pow256(4) == 0x1_0000_0000;
  }

  /** The network-order bytes of a signed integer, and the signed integer of network-order bytes. */
  function EncodeInt(x: int, n: nat): (s: seq<byte>)
    requires Fits(x, n)
    ensures |s| == n
  {
    BigEndian(ToUnsigned(x, n), n)
  }

  function DecodeInt(s: seq<byte>): (x: int)
    ensures Fits(x, |s|)
  {
    ToSigned(FromBigEndian(s), |s|)
  }

  lemma IntRoundTrip(x: int, n: nat)
    requires Fits(x, n)
    ensures DecodeInt(EncodeInt(x, n)) == x
  {
    BigEndianRoundTrip(ToUnsigned(x, n), n);
  }

  lemma IntInjective(s: seq<byte>, t: seq<byte>)
    requires |s| == |t| && DecodeInt(s) == DecodeInt(t)
    ensures s == t
  {
    BigEndianInjective(s, t);
  }

  // ---------- sequences ----------

  lemma Assoc<T>(x: seq<T>, y: seq<T>, z: seq<T>)
    ensures x + (y + z) == x + y + z
  {
  }

  lemma Split<T>(s: seq<T>, n: nat)
    requires n <= |s|
    ensures s[..n] + s[n..] == s && s[..|s|] == s && s[|s|..] == []
  {
  }

  /** A slice cut in two at `n`. */
  lemma Slices<T>(s: seq<T>, a: nat, b: nat, n: nat)
    requires a <= b <= |s| && n <= b - a
    ensures s[a..b][..n] == s[a..a + n] && s[a..b][n..] == s[a + n..b] && s[a..b] == s[a..a + n] + s[a + n..b]
  {
  }

  /** `d` with `s` written over it at `at`. */
  function Overlaid<T>(d: seq<T>, at: nat, s: seq<T>): (r: seq<T>)
    requires at + |s| <= |d|
    ensures |r| == |d| && r[..at] == d[..at] && r[at..at + |s|] == s && r[at + |s|..] == d[at + |s|..]
  {
    d[..at] + s + d[at + |s|..]
  }

  lemma OverlaidAfter<T>(d: seq<T>, at: nat, s: seq<T>, from: nat)
    requires from <= at && at + |s| <= |d|
    ensures Overlaid(d, at, s)[from..at + |s|] == d[from..at] + s
  {
    var r := Overlaid(d, at, s);
    assert r[from..at] == r[..at][from..] && d[from..at] == d[..at][from..];
    Slices(r, from, at + |s|, at - from);
  }

  lemma OverlaidBefore<T>(d: seq<T>, at: nat, s: seq<T>, to: nat)
    requires at + |s| <= to <= |d|
    ensures Overlaid(d, at, s)[at..to] == s + d[at + |s|..to]
  {
    var r, k := Overlaid(d, at, s), to - at - |s|;
    assert r[at + |s|..to] == r[at + |s|..][..k] && d[at + |s|..to] == d[at + |s|..][..k];
    Slices(r, at, to, |s|);
  }

  function Concat<T>(ss: seq<seq<T>>): seq<T> {
    if ss == [] then [] else ss[0] + Concat(ss[1..])
  }

  lemma {:induction false} ConcatAppend<T>(ss: seq<seq<T>>, tt: seq<seq<T>>)
    ensures Concat(ss + tt) == Concat(ss) + Concat(tt)
  {
    if ss == [] {
      assert ss + tt == tt;
    } else {
      assert (ss + tt)[1..] == ss[1..] + tt;
      ConcatAppend(ss[1..], tt);
    }
  }
}
