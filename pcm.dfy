/**
 * Linear PCM as the relay handles it: raw bytes on the wire and signed 16-bit mono
 * samples once `np.frombuffer(data, dtype=np.int16)` has read them (little-endian,
 * the byte order of the hosts the relay runs on).
 */
module Pcm {

  type Byte = x: int | 0 <= x < 0x100
  type Int16 = x: int | -0x8000 <= x < 0x8000

  /** The sample stored little-endian in the byte pair (lo, hi), as two's complement. */
  function SampleOf(lo: Byte, hi: Byte): Int16
  {
    var u := lo + 0x100 * hi;
    if u >= 0x8000 then u - 0x1_0000 else u
  }

  function LowByte(s: Int16): Byte
  {
    (if s < 0 then s + 0x1_0000 else s) % 0x100
  }

  function HighByte(s: Int16): Byte
  {
    (if s < 0 then s + 0x1_0000 else s) / 0x100
  }

  /** Reads a byte buffer of even length as int16 samples, two bytes per sample. */
  function DecodeInt16(b: seq<Byte>): (s: seq<Int16>)
    requires |b| % 2 == 0
    ensures |s| == |b| / 2
    decreases |b|
  {
    if b == [] then [] else [SampleOf(b[0], b[1])] + DecodeInt16(b[2..])
  }

  /** Writes int16 samples as little-endian bytes (what the device stream hands to the sender). */
  function EncodeInt16(s: seq<Int16>): (b: seq<Byte>)
    ensures |b| == 2 * |s|
  {
    if s == [] then [] else [LowByte(s[0]), HighByte(s[0])] + EncodeInt16(s[1..])
  }

  lemma SampleBytesRoundTrip(s: Int16, lo: Byte, hi: Byte)
    ensures SampleOf(LowByte(s), HighByte(s)) == s
    ensures LowByte(SampleOf(lo, hi)) == lo && HighByte(SampleOf(lo, hi)) == hi
  {
  }

  /** Decoding what was encoded gives back the samples. */
  lemma {:induction false} DecodeEncode(s: seq<Int16>)
    ensures DecodeInt16(EncodeInt16(s)) == s
  {
    if s != [] {
      var b := EncodeInt16(s);
      assert b[2..] == EncodeInt16(s[1..]);
      SampleBytesRoundTrip(s[0], 0, 0);
      DecodeEncode(s[1..]);
    }
  }

  /** Encoding what was decoded gives back the bytes: decoding loses nothing. */
  lemma {:induction false} EncodeDecode(b: seq<Byte>)
    requires |b| % 2 == 0
    ensures EncodeInt16(DecodeInt16(b)) == b
    decreases |b|
  {
    if b != [] {
      SampleBytesRoundTrip(0, b[0], b[1]);
      EncodeDecode(b[2..]);
      assert b == [b[0], b[1]] + b[2..];
    }
  }

  /** n zero bytes. */
  function ZeroBytes(n: nat): (z: seq<Byte>)
    ensures |z| == n && forall i :: 0 <= i < n ==> z[i] == 0
  {
    seq(n, _ => 0)
  }

  /** n silent samples. */
  function Silence(n: nat): (z: seq<Int16>)
    ensures |z| == n && forall i :: 0 <= i < n ==> z[i] == 0
  {
    seq(n, _ => 0)
  }

  /** The concatenation of a list of buffers, in order. */
  function Concat<T>(q: seq<seq<T>>): seq<T>
  {
    if q == [] then [] else q[0] + Concat(q[1..])
  }

  lemma {:induction false} ConcatAppend<T>(a: seq<seq<T>>, b: seq<seq<T>>)
    ensures Concat(a + b) == Concat(a) + Concat(b)
  {
    if a != [] {
      assert (a + b)[1..] == a[1..] + b;
      ConcatAppend(a[1..], b);
    } else {
      assert a + b == b;
    }
  }

  /** The total number of elements held in a list of buffers. */
  function TotalLength<T>(q: seq<seq<T>>): (n: nat)
    ensures n == |Concat(q)|
  {
    if q == [] then 0 else |q[0]| + TotalLength(q[1..])
  }
}
