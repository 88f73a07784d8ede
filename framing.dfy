/**
 * The batch front end's framing of 24 kHz mono int16 PCM into 20 ms frames
 * (api/server.py): constants and `chunk_pcm_20ms`.
 */
module Framing {
  import opened Pcm

  const AudioSr: nat := 24000
  const FrameMs: nat := 20
  /** Samples in one 20 ms frame at 24 kHz (api/server.py computes it in floating point). */
  const SamplesPerFrame: nat := 480
  /** int16 mono: two bytes per sample. */
  const BytesPerFrame: nat := SamplesPerFrame * 2

  lemma FrameConstants()
    ensures SamplesPerFrame == AudioSr * FrameMs / 1000
    ensures SamplesPerFrame == 480 && BytesPerFrame == 960
    ensures BytesPerFrame == 2 * SamplesPerFrame
  {
  }

  /** How many zero bytes `chunk_pcm_20ms` appends to a buffer of n bytes. */
  function PadLength(n: nat): nat
  {
    if n % BytesPerFrame != 0 then BytesPerFrame - n % BytesPerFrame else 0
  }

  /** The number of frames a buffer of n bytes becomes: n / 960 rounded up. */
  function FrameCount(n: nat): nat
  {
    (n + BytesPerFrame - 1) / BytesPerFrame
  }

  /** The slices pcm[i:i+960] for i in range(0, len(pcm), 960) of an already padded buffer. */
  function Slices(p: seq<Byte>): (frames: seq<seq<Byte>>)
    requires |p| % BytesPerFrame == 0
    ensures |frames| == |p| / BytesPerFrame
    ensures forall k :: 0 <= k < |frames| ==> |frames[k]| == BytesPerFrame
  {
    seq(|p| / BytesPerFrame, k requires 0 <= k < |p| / BytesPerFrame =>
      p[k * BytesPerFrame .. (k + 1) * BytesPerFrame])
  }

  /** Pads pcm with zero bytes to a multiple of 960 bytes and cuts it into 960-byte frames. */
  function ChunkPcm20ms(pcm: seq<Byte>): (frames: seq<seq<Byte>>)
    ensures |frames| == FrameCount(|pcm|)
    ensures forall k :: 0 <= k < |frames| ==> |frames[k]| == BytesPerFrame
  {
    var padded := if |pcm| % BytesPerFrame != 0
      then pcm + ZeroBytes(BytesPerFrame - |pcm| % BytesPerFrame)
      else pcm;
    Slices(padded)
  }

  /** Dropping the first frame of a padded buffer drops its first slice. */
  lemma SlicesTail(p: seq<Byte>)
    requires |p| % BytesPerFrame == 0 && p != []
    ensures |p| >= BytesPerFrame && (|p| - BytesPerFrame) % BytesPerFrame == 0
    ensures Slices(p)[0] == p[..BytesPerFrame]
    ensures Slices(p)[1..] == Slices(p[BytesPerFrame..])
  {
    var rest := p[BytesPerFrame..];
    var s, t := Slices(p), Slices(rest);
    assert |t| == |s| - 1;
    forall k | 0 <= k < |t|
      ensures s[1..][k] == t[k]
    {
      var lo := k * BytesPerFrame;
      assert (k + 1) * BytesPerFrame == lo + BytesPerFrame;
      assert (k + 2) * BytesPerFrame == lo + 2 * BytesPerFrame;
      assert t[k] == rest[lo..lo + BytesPerFrame];
      assert rest[lo..lo + BytesPerFrame] == p[lo + BytesPerFrame..lo + 2 * BytesPerFrame];
      assert s[k + 1] == p[lo + BytesPerFrame..lo + 2 * BytesPerFrame];
    }
  }

  /** Padding brings a length up to a whole number of frames. */
  lemma PaddedLength(n: nat)
    ensures n + PadLength(n) == BytesPerFrame * FrameCount(n)
  {
    var q, r := n / BytesPerFrame, n % BytesPerFrame;
    assert n == 960 * q + r && 0 <= r < 960;
    if r == 0 {
      assert FrameCount(n) == (960 * q + 959) / 960 == q;
    } else {
      assert FrameCount(n) == (960 * q + r + 959) / 960 == q + 1;
    }
  }

  /** Joining the slices of a padded buffer gives the buffer back. */
  lemma {:induction false} SlicesConcat(p: seq<Byte>)
    requires |p| % BytesPerFrame == 0
    ensures Concat(Slices(p)) == p
    decreases |p|
  {
    if p != [] {
      SlicesTail(p);
      SlicesConcat(p[BytesPerFrame..]);
      assert p == p[..BytesPerFrame] + p[BytesPerFrame..];
    }
  }

  /**
   * Every frame is one 20 ms frame, there are ceil(len/960) of them, and their
   * concatenation is the input followed by fewer than 960 zero bytes; no padding
   * when the length is already a whole number of frames.
   */
  lemma ChunkPcm20msRoundTrip(pcm: seq<Byte>)
    ensures Concat(ChunkPcm20ms(pcm)) == pcm + ZeroBytes(PadLength(|pcm|))
    ensures PadLength(|pcm|) < BytesPerFrame
    ensures PadLength(|pcm|) == 0 <==> |pcm| % BytesPerFrame == 0
    ensures Concat(ChunkPcm20ms(pcm))[..|pcm|] == pcm
    ensures |Concat(ChunkPcm20ms(pcm))| == BytesPerFrame * FrameCount(|pcm|)
  {
    var padded := pcm + ZeroBytes(PadLength(|pcm|));
    if |pcm| % BytesPerFrame == 0 {
      assert padded == pcm;
    }
    SlicesConcat(padded);
    PaddedLength(|pcm|);
    assert padded[..|pcm|] == pcm;
  }

  /** An empty upload yields no frames; a non-empty one at least one. */
  lemma ChunkPcm20msEmpty(pcm: seq<Byte>)
    ensures ChunkPcm20ms(pcm) == [] <==> pcm == []
  {
  }
}
