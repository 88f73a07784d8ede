/**
 * The playback jitter queue `AudioPlayerAsync` (api/azure_voice_live.py): network audio
 * arrives in chunks of any size and the output device pulls fixed-size blocks from it.
 * The lock around each method is modelled by running each method atomically.
 */
module Playback {
  import opened Pcm

  /** The leading samples of a chunk, at most n of them (numpy's clamping item[:n]). */
  function Head(item: seq<Int16>, n: nat): (h: seq<Int16>)
    ensures |h| == if |item| <= n then |item| else n
    ensures h == item[..|h|]
  {
    if |item| <= n then item else item[..n]
  }

  /**
   * The samples the callback loop takes from queue q when it still needs `need`
   * samples: whole chunks from the head, and the front of the chunk that is longer
   * than what is still needed.
   */
  function Taken(q: seq<seq<Int16>>, need: nat): (t: seq<Int16>)
    ensures |t| <= need
  {
    if need == 0 || q == [] then []
    else Head(q[0], need) + Taken(q[1..], need - |Head(q[0], need)|)
  }

  /**
   * The queue the callback loop leaves behind: the chunks it popped whole are gone
   * and a chunk it only partly used is put back, shortened, at the head.
   */
  function Consume(q: seq<seq<Int16>>, need: nat): (r: seq<seq<Int16>>)
    ensures |r| <= |q|
    ensures need == 0 ==> r == q
  {
    if need == 0 || q == [] then q
    else if |q[0]| > need then [q[0][need..]] + q[1..]
    else Consume(q[1..], need - |q[0]|)
  }

  /** The block the callback writes: the samples taken, then silence up to `frames`. */
  function Pulled(q: seq<seq<Int16>>, frames: nat): (b: seq<Int16>)
    ensures |b| == frames
  {
    Taken(q, frames) + Silence(frames - |Taken(q, frames)|)
  }

  function Min(a: nat, b: nat): nat
  {
    if a <= b then a else b
  }

  /**
   * One turn of the callback loop: popping the head chunk, keeping at most `need` of its
   * samples and putting back the rest leaves the samples still to take, and the queue
   * finally left, unchanged.
   */
  lemma PopStep(q: seq<seq<Int16>>, need: nat)
    requires need > 0 && q != []
    ensures var h := Head(q[0], need);
      var rest := if |q[0]| > need then [q[0][need..]] + q[1..] else q[1..];
      Taken(q, need) == h + Taken(rest, need - |h|) &&
      Consume(q, need) == Consume(rest, need - |h|)
  {
  }

  lemma AppendAssoc<T>(a: seq<T>, b: seq<T>, c: seq<T>)
    ensures (a + b) + c == a + (b + c)
  {
  }

  /** What the callback takes is the first min(need, queued) samples of the queue, in order. */
  lemma {:induction false} TakenIsPrefix(q: seq<seq<Int16>>, need: nat)
    ensures Taken(q, need) == Concat(q)[..Min(need, |Concat(q)|)]
  {
    if need != 0 && q != [] {
      TakenIsPrefix(q[1..], need - |Head(q[0], need)|);
      assert Concat(q) == q[0] + Concat(q[1..]);
    }
  }

  /** What the callback leaves queued is exactly the part of the queue it did not take. */
  lemma {:induction false} ConsumeLeavesRest(q: seq<seq<Int16>>, need: nat)
    ensures Concat(Consume(q, need)) == Concat(q)[Min(need, |Concat(q)|)..]
  {
    if need != 0 && q != [] {
      assert Concat(q) == q[0] + Concat(q[1..]);
      if |q[0]| > need {
        assert Concat([q[0][need..]] + q[1..]) == q[0][need..] + Concat(q[1..]) by {
          assert ([q[0][need..]] + q[1..])[1..] == q[1..];
        }
      } else {
        ConsumeLeavesRest(q[1..], need - |q[0]|);
      }
    }
  }

  /**
   * The shape of the queue after a callback: an untouched suffix of the old queue,
   * possibly headed by the leftover of one partly used chunk. A leftover is put back
   * only at the head and only when it is non-empty, so the callback never adds an
   * empty chunk.
   */
  lemma {:induction false} ConsumeShape(q: seq<seq<Int16>>, need: nat)
    ensures var r := Consume(q, need); var k := |q| - |r|;
      |r| <= |q| &&
      (r != [] ==> r[1..] == q[k + 1..] &&
                   |r[0]| <= |q[k]| && r[0] == q[k][|q[k]| - |r[0]|..] &&
                   (r[0] != q[k] ==> |r[0]| > 0))
  {
    if need != 0 && q != [] && |q[0]| <= need {
      ConsumeShape(q[1..], need - |q[0]|);
      var r := Consume(q, need);
      var k := |q| - |r|;
      if r != [] {
        assert q[1..][k - 1] == q[k];
        assert q[1..][k..] == q[k + 1..];
      }
    }
  }

  /** Taken and Consume split the queue: nothing is lost or duplicated. */
  lemma TakenThenRest(q: seq<seq<Int16>>, need: nat)
    ensures Taken(q, need) + Concat(Consume(q, need)) == Concat(q)
    ensures TotalLength(Consume(q, need)) == TotalLength(q) - Min(need, TotalLength(q))
  {
    TakenIsPrefix(q, need);
    ConsumeLeavesRest(q, need);
  }

  /**
   * The device block is exactly `frames` samples long: the first min(frames, queued)
   * queued samples, then zeros for the deficit.
   */
  lemma PulledBlock(q: seq<seq<Int16>>, frames: nat)
    ensures var t := Min(frames, |Concat(q)|);
      |Pulled(q, frames)| == frames &&
      Pulled(q, frames)[..t] == Concat(q)[..t] &&
      forall i :: t <= i < frames ==> Pulled(q, frames)[i] == 0
  {
    TakenIsPrefix(q, frames);
  }

  /**
   * Two chunks queued and a block shorter than the first: the first chunk's rest stays
   * at the head, in order, followed by the whole second chunk.
   */
  lemma PartialPullKeepsOrder(c1: seq<Int16>, c2: seq<Int16>, n: nat)
    requires 0 < n < |c1|
    ensures Pulled([c1, c2], n) == c1[..n]
    ensures Consume([c1, c2], n) == [c1[n..], c2]
  {
  }

  class AudioPlayer {
    /** The queued chunks, head first. */
    var queue: seq<seq<Int16>>
    /** Whether the output stream has been started. */
    var playing: bool

    constructor ()
      ensures queue == [] && !playing
    {
      queue := [];
      playing := false;
    }

    /**
     * The device callback: fills `outdata` (the `frames` samples the device asks for)
     * from the head of the queue, putting back the rest of a partly used chunk, and
     * with silence once the queue runs dry.
     */
    method Callback(outdata: array<Int16>, frames: nat)
      requires outdata.Length == frames
      modifies this`queue, outdata
      ensures outdata[..] == Pulled(old(queue), frames)
      ensures queue == Consume(old(queue), frames)
    {
      var data: seq<Int16> := [];
      while |data| < frames && |queue| > 0
        invariant |data| <= frames
        invariant data + Taken(queue, frames - |data|) == Taken(old(queue), frames)
        invariant Consume(queue, frames - |data|) == Consume(old(queue), frames)
        decreases frames - |data|, |queue|
      {
        ghost var had := data;
        PopStep(queue, frames - |data|);
        var item := queue[0];
        queue := queue[1..];
        var framesNeeded := frames - |data|;
        data := data + Head(item, framesNeeded);
        if |item| > framesNeeded {
          queue := [item[framesNeeded..]] + queue;
        }
        AppendAssoc(had, Head(item, framesNeeded), Taken(queue, frames - |data|));
      }
      assert Taken(queue, frames - |data|) == [];
      if |data| < frames {
        data := data + Silence(frames - |data|);
      }
      forall i | 0 <= i < frames {
        outdata[i] := data[i];
      }
    }

    /**
     * Queues the int16 samples of `data` at the tail and starts playback. numpy refuses
     * a buffer of odd length (a ValueError); then nothing changes and `accepted` is false.
     */
    method AddData(data: seq<Byte>) returns (accepted: bool)
      modifies this
      ensures accepted == (|data| % 2 == 0)
      ensures accepted ==> queue == old(queue) + [DecodeInt16(data)] && playing
      ensures !accepted ==> queue == old(queue) && playing == old(playing)
    {
      if |data| % 2 != 0 {
        return false;
      }
      queue := queue + [DecodeInt16(data)];
      if !playing {
        Start();
      }
      accepted := true;
    }

    method Start()
      modifies this`playing
      ensures playing
    {
      playing := true;
    }

    /** Discards everything queued and marks playback stopped. */
    method Stop()
      modifies this
      ensures queue == [] && !playing
    {
      queue := [];
      playing := false;
    }
  }

  /** After `stop`, the next callback block is all silence. */
  lemma PullAfterStop(frames: nat)
    ensures Pulled([], frames) == Silence(frames)
    ensures Consume([], frames) == []
  {
  }
}
