/**
 * The receive side of the live relay, `receive_audio_and_playback`
 * (api/azure_voice_live.py): one pass of `async for raw_event in connection` hands
 * audio deltas to the player and remembers the last item id, until `response.done`
 * or an undecodable event ends the pass; the enclosing `while True` starts the next
 * pass on the same connection.
 */
module LiveReceive {
  import opened Wrappers
  import opened Pcm
  import opened Events
  import opened Playback

  /** Why a pass ended. */
  datatype PassEnd =
    | ResponseDone    // `break` on response.done
    | DecodeFailed    // `break` on a JSON decode failure
    | StreamClosed    // the connection yielded no more events
    | PlayerRejected  // add_data raised (odd-length delta): the exception leaves the function

  /**
   * The effect of one pass: the chunks `add_data` queued (the decoded deltas it accepted),
   * the item id remembered, why the pass ended and how many events it read (the one that
   * ended it included).
   */
  datatype PassResult = PassResult(queued: seq<seq<Int16>>, lastItem: Option<string>, end: PassEnd, read: nat)

  /** `base64.b64decode(event.get("delta", ""))`: a missing delta is an empty payload. */
  function LiveDelta(e: Inbound): seq<Byte>
    requires e.Message?
  {
    if e.delta.Some? then e.delta.value else []
  }

  /** The events that end a pass. */
  predicate EndsPass(e: Inbound)
  {
    e.Undecodable? || IsResponseDone(e) || (IsAudioDelta(e) && |LiveDelta(e)| % 2 != 0)
  }

  /** What the loop body does with one event, given the item id remembered so far. */
  datatype Step =
    | Deliver(chunk: seq<Int16>, newLast: Option<string>)  // add_data queues the decoded delta
    | Skip                                                   // an event of another type
    | Stop(why: PassEnd, newLast: Option<string>)            // the pass ends here

  function StepOf(e: Inbound, last: Option<string>): (s: Step)
    ensures s.Stop? <==> EndsPass(e)
    ensures s.Skip? <==> e.Message? && !IsAudioDelta(e) && !IsResponseDone(e)
    ensures s.Deliver? ==> IsAudioDelta(e) && s.chunk == DecodeInt16(LiveDelta(e))
    ensures !s.Skip? ==> s.newLast == if IsAudioDelta(e) then e.itemId else last
  {
    if e.Undecodable? then Stop(DecodeFailed, last)
    else if e.kind == AudioDeltaType then
      var last' := if e.itemId != last then e.itemId else last;
      if |LiveDelta(e)| % 2 != 0 then Stop(PlayerRejected, last')
      else Deliver(DecodeInt16(LiveDelta(e)), last')
    else if e.kind == ResponseDoneType then Stop(ResponseDone, last)
    else Skip
  }

  /** One pass over the events, in the order the loop takes them. */
  function Pass(events: seq<Inbound>, last: Option<string>): (r: PassResult)
    ensures r.read <= |events|
    ensures events != [] ==> r.read >= 1
  {
    if events == [] then PassResult([], last, StreamClosed, 0)
    else
      match StepOf(events[0], last)
      case Stop(why, last') => PassResult([], last', why, 1)
      case Skip =>
        var r := Pass(events[1..], last);
        r.(read := r.read + 1)
      case Deliver(chunk, last') =>
        var r := Pass(events[1..], last');
        PassResult([chunk] + r.queued, r.lastItem, r.end, r.read + 1)
  }

  /** A pass of which the first i events have been read, having queued `queued`. */
  function Resume(queued: seq<seq<Int16>>, rest: PassResult, i: nat): PassResult
  {
    PassResult(queued + rest.queued, rest.lastItem, rest.end, rest.read + i)
  }

  /** Reading the event at position i advances a resumed pass by one step. */
  lemma Advance(events: seq<Inbound>, i: nat, last: Option<string>, queued: seq<seq<Int16>>)
    requires i < |events|
    ensures var r := Resume(queued, Pass(events[i..], last), i);
      match StepOf(events[i], last)
      case Stop(why, last') => r == PassResult(queued, last', why, i + 1)
      case Skip => r == Resume(queued, Pass(events[i + 1..], last), i + 1)
      case Deliver(chunk, last') => r == Resume(queued + [chunk], Pass(events[i + 1..], last'), i + 1)
  {
    assert events[i..][0] == events[i] && events[i..][1..] == events[i + 1..];
    match StepOf(events[i], last)
    case Stop(_, _) =>
      assert queued + [] == queued;
    case Skip =>
    case Deliver(chunk, last') =>
      var r := Pass(events[i + 1..], last');
      assert queued + ([chunk] + r.queued) == queued + [chunk] + r.queued;
  }

  // ---- an independent description of a pass ----

  /** The position of the first event that ends a pass, or the number of events. */
  function StopIndex(events: seq<Inbound>): (k: nat)
    ensures k <= |events|
    ensures forall j :: 0 <= j < k ==> !EndsPass(events[j])
    ensures k < |events| ==> EndsPass(events[k])
  {
    if events == [] || EndsPass(events[0]) then 0 else 1 + StopIndex(events[1..])
  }

  /** The delta payloads of the audio delta events, in order; other events give nothing. */
  function AudioPayloads(events: seq<Inbound>): seq<seq<Byte>>
  {
    if events == [] then []
    else (if IsAudioDelta(events[0]) then [LiveDelta(events[0])] else []) + AudioPayloads(events[1..])
  }

  /** The item id of the last audio delta event, or `init` when there is none. */
  function LastDeltaItem(events: seq<Inbound>, init: Option<string>): Option<string>
  {
    if events == [] then init
    else LastDeltaItem(events[1..], if IsAudioDelta(events[0]) then events[0].itemId else init)
  }

  /** How a pass ends when the event at position k stops it (k == |events|: none does). */
  function EndAt(events: seq<Inbound>, k: nat): PassEnd
    requires k <= |events|
  {
    if k == |events| then StreamClosed
    else if events[k].Undecodable? then DecodeFailed
    else if IsResponseDone(events[k]) then ResponseDone
    else PlayerRejected
  }

  /** Decodes each payload into the chunk `add_data` queues for it. */
  function DecodeEach(ps: seq<seq<Byte>>): (chunks: seq<seq<Int16>>)
    requires forall p <- ps :: |p| % 2 == 0
    ensures |chunks| == |ps|
  {
    seq(|ps|, i requires 0 <= i < |ps| => DecodeInt16(ps[i]))
  }

  /**
   * A pass queues the deltas of the audio delta events before the first event that
   * ends it, in order, and nothing for any other event type.
   */
  lemma {:induction false} PassQueuesDeltas(events: seq<Inbound>, last: Option<string>)
    ensures forall p <- AudioPayloads(events[..StopIndex(events)]) :: |p| % 2 == 0
    ensures Pass(events, last).queued == DecodeEach(AudioPayloads(events[..StopIndex(events)]))
  {
    var k := StopIndex(events);
    PayloadsBeforeStopAreEven(events);
    if events == [] || EndsPass(events[0]) {
      assert events[..k] == [];
    } else {
      var e := events[0];
      var last' := if IsAudioDelta(e) && e.itemId != last then e.itemId else last;
      assert StopIndex(events[1..]) == k - 1;
      PassQueuesDeltas(events[1..], last');
      var tail := AudioPayloads(events[1..][..k - 1]);
      var head := if IsAudioDelta(e) then [LiveDelta(e)] else [];
      AudioPayloadsPrefix(events, k);
      DecodeEachConcat(head, tail);
      PassCons(events, last);
      assert DecodeEach(head) == (if IsAudioDelta(e) then [DecodeInt16(LiveDelta(e))] else []);
    }
  }

  /** The deltas before the first event that ends a pass all have even length. */
  lemma {:induction false} PayloadsBeforeStopAreEven(events: seq<Inbound>)
    ensures forall p <- AudioPayloads(events[..StopIndex(events)]) :: |p| % 2 == 0
  {
    var k := StopIndex(events);
    if events == [] || EndsPass(events[0]) {
      assert events[..k] == [];
    } else {
      PayloadsBeforeStopAreEven(events[1..]);
      AudioPayloadsPrefix(events, k);
    }
  }

  /** A first event that does not end the pass queues its decoded delta, if any, before the rest. */
  lemma PassCons(events: seq<Inbound>, last: Option<string>)
    requires events != [] && !EndsPass(events[0])
    ensures var e := events[0];
      var last' := if IsAudioDelta(e) && e.itemId != last then e.itemId else last;
      Pass(events, last).queued
        == (if IsAudioDelta(e) then [DecodeInt16(LiveDelta(e))] else []) + Pass(events[1..], last').queued
  {
  }

  /** The payloads of a non-empty prefix: those of its first event, then those of the rest. */
  lemma AudioPayloadsPrefix(events: seq<Inbound>, k: nat)
    requires 0 < k <= |events|
    ensures AudioPayloads(events[..k])
      == (if IsAudioDelta(events[0]) then [LiveDelta(events[0])] else []) + AudioPayloads(events[1..][..k - 1])
  {
    assert events[..k] == [events[0]] + events[1..][..k - 1];
    AudioPayloadsCons(events[0], events[1..][..k - 1]);
  }

  lemma AudioPayloadsCons(e: Inbound, rest: seq<Inbound>)
    ensures AudioPayloads([e] + rest) == (if IsAudioDelta(e) then [LiveDelta(e)] else []) + AudioPayloads(rest)
  {
    assert ([e] + rest)[1..] == rest;
  }

  lemma DecodeEachConcat(a: seq<seq<Byte>>, b: seq<seq<Byte>>)
    requires forall p <- a :: |p| % 2 == 0
    requires forall p <- b :: |p| % 2 == 0
    ensures forall p <- a + b :: |p| % 2 == 0
    ensures DecodeEach(a + b) == DecodeEach(a) + DecodeEach(b)
  {
  }

  /**
   * A pass reads up to and including the first event that ends it (or every event),
   * and ends for the reason that event gives.
   */
  lemma {:induction false} PassEndsAtStop(events: seq<Inbound>, last: Option<string>)
    ensures var k := StopIndex(events);
      Pass(events, last).read == (if k < |events| then k + 1 else k) &&
      Pass(events, last).end == EndAt(events, k)
  {
    if events != [] && !EndsPass(events[0]) {
      var e := events[0];
      var last' := if IsAudioDelta(e) && e.itemId != last then e.itemId else last;
      PassEndsAtStop(events[1..], last');
    }
  }

  /** After a pass the remembered item id is that of the last audio delta it read. */
  lemma {:induction false} PassLastItem(events: seq<Inbound>, last: Option<string>)
    ensures Pass(events, last).lastItem == LastDeltaItem(events[..Pass(events, last).read], last)
  {
    if events != [] {
      var e := events[0];
      var last' := if IsAudioDelta(e) && e.itemId != last then e.itemId else last;
      var n := Pass(events, last).read;
      assert events[..n][0] == e;
      if EndsPass(e) {
        assert events[..n][1..] == [];
      } else {
        PassLastItem(events[1..], last');
        assert events[..n][1..] == events[1..][..n - 1];
      }
    }
  }

  /**
   * The body of the receive loop for one event: an audio delta updates the remembered
   * item id and goes to `add_data`; an undecodable event, `response.done` or a delta
   * that `add_data` refuses stops the pass; anything else is skipped. Does what
   * `StepOf` says.
   */
  method HandleEvent(e: Inbound, player: AudioPlayer, last: Option<string>)
      returns (newLast: Option<string>, stop: Option<PassEnd>)
    modifies player
    ensures match StepOf(e, last)
      case Stop(why, last') =>
        stop == Some(why) && newLast == last' &&
        player.queue == old(player.queue) && player.playing == old(player.playing)
      case Skip =>
        stop == None && newLast == last &&
        player.queue == old(player.queue) && player.playing == old(player.playing)
      case Deliver(chunk, last') =>
        stop == None && newLast == last' &&
        player.queue == old(player.queue) + [chunk] && player.playing
  {
    newLast := last;
    if e.Undecodable? {
      return last, Some(DecodeFailed);
    }
    if e.kind == AudioDeltaType {
      if e.itemId != newLast {
        newLast := e.itemId;
      }
      var accepted := player.AddData(LiveDelta(e));
      stop := if accepted then None else Some(PlayerRejected);
    } else if e.kind == ResponseDoneType {
      stop := Some(ResponseDone);
    } else {
      stop := None;
    }
  }

  /**
   * One pass of the receive loop against the player: every audio delta goes to
   * `add_data`, the last item id is tracked, and the pass stops at the first
   * `response.done`, decode failure or rejected delta. Returns the item id, why the
   * pass ended and how many events it read.
   */
  method ReceivePass(events: seq<Inbound>, player: AudioPlayer, last: Option<string>)
      returns (lastItem: Option<string>, end: PassEnd, read: nat)
    modifies player
    ensures var r := Pass(events, last);
      lastItem == r.lastItem && end == r.end && read == r.read &&
      player.queue == old(player.queue) + r.queued &&
      player.playing == (old(player.playing) || r.queued != [])
  {
    lastItem := last;
    ghost var queued: seq<seq<Int16>> := [];
    var i := 0;
    end := StreamClosed;
    while i < |events|
      invariant 0 <= i <= |events|
      invariant Pass(events, last) == Resume(queued, Pass(events[i..], lastItem), i)
      invariant player.queue == old(player.queue) + queued
      invariant player.playing == (old(player.playing) || queued != [])
    {
      Advance(events, i, lastItem, queued);
      ghost var step := StepOf(events[i], lastItem);
      var stop;
      lastItem, stop := HandleEvent(events[i], player, lastItem);
      i := i + 1;
      if stop.Some? {
        end := stop.value;
        assert Pass(events, last) == PassResult(queued, lastItem, end, i);
        break;
      }
      if step.Deliver? {
        queued := queued + [step.chunk];
      }
    }
    assert i < |events| || events[i..] == [];
    read := i;
  }

  // ---- the whole receive session: `while True` around the pass ----

  /**
   * The chunks a receive session queues: the decoded delta of every audio delta event,
   * across `response.done` and undecodable events, up to the first delta that `add_data`
   * rejects (its exception ends the session).
   */
  function SessionQueued(events: seq<Inbound>): (q: seq<seq<Int16>>)
    ensures |q| <= |events|
  {
    if events == [] then []
    else if IsAudioDelta(events[0]) then
      if |LiveDelta(events[0])| % 2 != 0 then []
      else [DecodeInt16(LiveDelta(events[0]))] + SessionQueued(events[1..])
    else SessionQueued(events[1..])
  }

  /** A session is one pass followed, unless the pass was aborted, by a session on the rest. */
  predicate SplitsAtPass(events: seq<Inbound>, last: Option<string>)
  {
    var r := Pass(events, last);
    SessionQueued(events) ==
      if r.end == PlayerRejected then r.queued else r.queued + SessionQueued(events[r.read..])
  }

  lemma {:induction false} PassThenSession(events: seq<Inbound>, last: Option<string>)
    ensures SplitsAtPass(events, last)
  {
    if events != [] {
      match StepOf(events[0], last)
      case Stop(why, last') =>
        StopThenSession(events, last, why, last');
      case Skip =>
        PassThenSession(events[1..], last);
        SkipThenSession(events, last);
      case Deliver(chunk, last') =>
        PassThenSession(events[1..], last');
        DeliverThenSession(events, last, chunk, last');
    }
  }

  lemma StopThenSession(events: seq<Inbound>, last: Option<string>, why: PassEnd, last': Option<string>)
    requires events != [] && StepOf(events[0], last) == Stop(why, last')
    ensures SplitsAtPass(events, last)
  {
    assert Pass(events, last) == PassResult([], last', why, 1);
    if why == PlayerRejected {
      assert SessionQueued(events) == [];
    } else {
      assert !IsAudioDelta(events[0]);
      assert SessionQueued(events) == SessionQueued(events[1..]);
    }
  }

  lemma SkipThenSession(events: seq<Inbound>, last: Option<string>)
    requires events != [] && StepOf(events[0], last) == Skip
    requires SplitsAtPass(events[1..], last)
    ensures SplitsAtPass(events, last)
  {
    var r := Pass(events[1..], last);
    assert Pass(events, last) == r.(read := r.read + 1);
    assert SessionQueued(events) == SessionQueued(events[1..]);
    assert events[1..][r.read..] == events[r.read + 1..];
  }

  lemma DeliverThenSession(events: seq<Inbound>, last: Option<string>, chunk: seq<Int16>, last': Option<string>)
    requires events != [] && StepOf(events[0], last) == Deliver(chunk, last')
    requires SplitsAtPass(events[1..], last')
    ensures SplitsAtPass(events, last)
  {
    var r := Pass(events[1..], last');
    assert Pass(events, last) == PassResult([chunk] + r.queued, r.lastItem, r.end, r.read + 1);
    assert SessionQueued(events) == [chunk] + SessionQueued(events[1..]);
    if r.end != PlayerRejected {
      assert events[1..][r.read..] == events[r.read + 1..];
      AppendAssoc([chunk], r.queued, SessionQueued(events[r.read + 1..]));
    }
  }

  /**
   * The session loop's step: after one more pass from position pos, what is queued
   * plus what the rest of the session will queue is unchanged.
   */
  lemma SessionStep(events: seq<Inbound>, pos: nat, last: Option<string>, q: seq<seq<Int16>>)
    requires pos <= |events|
    ensures var r := Pass(events[pos..], last);
      pos + r.read <= |events| &&
      (r.end == PlayerRejected ==> q + r.queued == q + SessionQueued(events[pos..])) &&
      (r.end != PlayerRejected ==>
        (q + r.queued) + SessionQueued(events[pos + r.read..]) == q + SessionQueued(events[pos..]))
  {
    var rest := events[pos..];
    var r := Pass(rest, last);
    assert SplitsAtPass(rest, last) by {
      PassThenSession(rest, last);
    }
    if r.end != PlayerRejected {
      var later := SessionQueued(events[pos + r.read..]);
      assert SessionQueued(rest) == r.queued + later by {
        assert rest[r.read..] == events[pos + r.read..];
      }
      AppendAssoc(q, r.queued, later);
    }
  }

  /** An event that is not an audio delta changes nothing a session queues. */
  lemma {:induction false} SessionIgnoresOtherEvents(a: seq<Inbound>, e: Inbound, b: seq<Inbound>)
    requires !IsAudioDelta(e)
    ensures SessionQueued(a + [e] + b) == SessionQueued(a + b)
  {
    if a == [] {
      assert (a + [e] + b)[1..] == b && a + b == b;
    } else {
      assert (a + [e] + b)[0] == a[0] && (a + b)[0] == a[0];
      SessionIgnoresOtherEvents(a[1..], e, b);
      assert (a + [e] + b)[1..] == a[1..] + [e] + b;
      assert (a + b)[1..] == a[1..] + b;
    }
  }

  /**
   * `receive_audio_and_playback` over the events a connection delivers: a fresh player,
   * then passes repeated until the events run out or `add_data` raises. Every accepted
   * audio delta of the session is queued on the player, in order, and the player is
   * playing exactly when something was queued.
   */
  method ReceiveAudioAndPlayback(events: seq<Inbound>) returns (player: AudioPlayer)
    ensures fresh(player)
    ensures player.queue == SessionQueued(events)
    ensures player.playing == (SessionQueued(events) != [])
  {
    var lastAudioItemId: Option<string> := None;
    player := new AudioPlayer();
    var pos := 0;
    while pos < |events|
      invariant pos <= |events|
      invariant fresh(player)
      invariant player.queue + SessionQueued(events[pos..]) == SessionQueued(events)
      invariant player.playing == (player.queue != [])
      decreases |events| - pos
    {
      SessionStep(events, pos, lastAudioItemId, player.queue);
      var end, read;
      lastAudioItemId, end, read := ReceivePass(events[pos..], player, lastAudioItemId);
      if end == PlayerRejected {
        // add_data raised: the exception ends the whole session
        return;
      }
      pos := pos + read;
    }
    assert pos < |events| || events[pos..] == [];
  }
}
