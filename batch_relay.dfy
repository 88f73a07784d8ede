/**
 * The batch relay `stream_to_azure_and_back` (api/server.py): send every 20 ms frame,
 * commit, ask for a response, then gather the response audio until `response.done`.
 * The connection is a log of outbound messages and a finite sequence of inbound events.
 */
module BatchRelay {
  import opened Wrappers
  import opened Pcm
  import opened Events
  import opened Framing
  import opened VoiceLiveClient

  const DeploymentVar: string := "AZURE_VOICE_LIVE_DEPLOYMENT"

  /** Outbound messages, before JSON and base64 encoding. */
  datatype Outbound =
    | SessionUpdate               // the session configuration (its payload is not modelled)
    | AppendAudio(audio: seq<Byte>)  // input_audio_buffer.append with an empty event_id
    | Commit                      // input_audio_buffer.commit
    | ResponseCreate              // response.create

  datatype BatchError =
    | MissingSetting(name: string)      // os.environ[name] raised KeyError
    | ClientRejected(configError: ConfigError)
    | ConnectRejected(connectError: ConnectError)
    | MalformedEvent                    // json.loads raised on an inbound message

  /** The messages of one turn: one append per frame, in frame order, then commit, then response.create. */
  function TurnMessages(frames: seq<seq<Byte>>): (m: seq<Outbound>)
    ensures |m| == |frames| + 2
    ensures forall i :: 0 <= i < |frames| ==> m[i] == AppendAudio(frames[i])
    ensures m[|frames|] == Commit && m[|frames| + 1] == ResponseCreate
  {
    seq(|frames|, i requires 0 <= i < |frames| => AppendAudio(frames[i])) + [Commit, ResponseCreate]
  }

  /** The audio carried by the append messages of a message log, in order. */
  function AppendedAudio(m: seq<Outbound>): seq<Byte>
  {
    if m == [] then []
    else (if m[0].AppendAudio? then m[0].audio else []) + AppendedAudio(m[1..])
  }

  /** The appends of a turn carry the frames back to back. */
  lemma {:induction false} TurnCarriesFrames(frames: seq<seq<Byte>>)
    ensures AppendedAudio(TurnMessages(frames)) == Concat(frames)
    decreases |frames|
  {
    var m := TurnMessages(frames);
    if frames == [] {
      assert m == [Commit, ResponseCreate];
      assert m[1..] == [ResponseCreate] && m[1..][1..] == [];
      assert AppendedAudio(m[1..]) == [];
    } else {
      assert m[1..] == TurnMessages(frames[1..]);
      TurnCarriesFrames(frames[1..]);
    }
  }

  /** What the service receives for an upload is the PCM followed by fewer than 960 zero bytes. */
  lemma UploadCarriesPcm(pcm: seq<Byte>)
    ensures AppendedAudio(TurnMessages(ChunkPcm20ms(pcm))) == pcm + ZeroBytes(PadLength(|pcm|))
    ensures PadLength(|pcm|) < BytesPerFrame
  {
    TurnCarriesFrames(ChunkPcm20ms(pcm));
    ChunkPcm20msRoundTrip(pcm);
  }

  /** The sending part of the relay: an append per frame, then commit and response.create. */
  method SendFrames(frames: seq<seq<Byte>>) returns (sent: seq<Outbound>)
    ensures sent == TurnMessages(frames)
  {
    sent := [];
    for i := 0 to |frames|
      invariant |sent| == i
      invariant forall j :: 0 <= j < i ==> sent[j] == AppendAudio(frames[j])
    {
      sent := sent + [AppendAudio(frames[i])];
    }
    sent := sent + [Commit];
    sent := sent + [ResponseCreate];
  }

  // ---- gathering the response ----

  /** The inbound events that end the gathering loop: a decode failure raises, response.done breaks. */
  predicate EndsGathering(e: Inbound)
  {
    e.Undecodable? || IsResponseDone(e)
  }

  /** The position of the first event that ends the gathering loop, or the number of events. */
  function GatherStop(events: seq<Inbound>): (k: nat)
    ensures k <= |events|
    ensures forall j :: 0 <= j < k ==> !EndsGathering(events[j])
    ensures k < |events| ==> EndsGathering(events[k])
  {
    if events == [] || EndsGathering(events[0]) then 0 else 1 + GatherStop(events[1..])
  }

  /** What one event adds: the decoded delta of an audio delta event when it is present and non-empty. */
  function GatheredDelta(e: Inbound): (d: seq<Byte>)
    ensures d != [] ==> IsAudioDelta(e) && e.delta == Some(d)
  {
    if IsAudioDelta(e) && e.delta.Some? then e.delta.value else []
  }

  /** What each event of a run adds, event by event. */
  function Contributions(events: seq<Inbound>): (ds: seq<seq<Byte>>)
    ensures |ds| == |events|
  {
    seq(|events|, i requires 0 <= i < |events| => GatheredDelta(events[i]))
  }

  /**
   * The bytes gathered from a run of events, as the loop extends them one event at a
   * time: the contributions of the events joined in order.
   */
  function Gathered(events: seq<Inbound>): (audio: seq<Byte>)
    ensures audio == Concat(Contributions(events))
  {
    if events == [] then []
    else
      var init, last := events[..|events| - 1], events[|events| - 1];
      assert Contributions(events) == Contributions(init) + [GatheredDelta(last)];
      ConcatAppend(Contributions(init), [GatheredDelta(last)]);
      assert Concat([GatheredDelta(last)]) == GatheredDelta(last) + Concat([]);
      Gathered(init) + GatheredDelta(last)
  }

  /** Gathering one more event adds its contribution at the end. */
  lemma GatheredSnoc(events: seq<Inbound>, i: nat)
    requires i < |events|
    ensures Gathered(events[..i + 1]) == Gathered(events[..i]) + GatheredDelta(events[i])
  {
    assert events[..i + 1][..i] == events[..i];
  }

  /**
   * The gathering loop: the concatenation of the audio deltas before the first
   * `response.done`, or a failure when an undecodable event comes first.
   */
  method Gather(events: seq<Inbound>) returns (r: Result<seq<Byte>, BatchError>)
    ensures var k := GatherStop(events);
      if k < |events| && events[k].Undecodable? then r == Failure(MalformedEvent)
      else r == Success(Gathered(events[..k]))
  {
    var collected: seq<Byte> := [];
    var i := 0;
    while i < |events|
      invariant i <= GatherStop(events)
      invariant collected == Gathered(events[..i])
    {
      var evt := events[i];
      if evt.Undecodable? {
        assert GatherStop(events) == i;
        return Failure(MalformedEvent);
      }
      GatheredSnoc(events, i);
      if evt.kind == AudioDeltaType {
        var delta := evt.delta;
        if delta.Some? && delta.value != [] {
          collected := collected + delta.value;
        }
      } else if evt.kind == ResponseDoneType {
        assert GatherStop(events) == i;
        break;
      }
      i := i + 1;
    }
    assert i == GatherStop(events);
    r := Success(collected);
  }

  /** Events after the first `response.done` are never read. */
  lemma GatheringStopsAtDone(a: seq<Inbound>, done: Inbound, b: seq<Inbound>)
    requires forall e <- a :: !EndsGathering(e)
    requires IsResponseDone(done)
    ensures GatherStop(a + [done] + b) == |a|
    ensures (a + [done] + b)[..|a|] == a
  {
    var s := a + [done] + b;
    assert s[|a|] == done;
    forall j | 0 <= j < |a| ensures !EndsGathering(s[j]) {
      assert s[j] == a[j];
    }
  }

  /** Only audio deltas contribute: an event of any other type adds nothing. */
  lemma ContributionsAppend(a: seq<Inbound>, b: seq<Inbound>)
    ensures Contributions(a + b) == Contributions(a) + Contributions(b)
  {
    var c := Contributions(a + b);
    forall i | 0 <= i < |c|
      ensures c[i] == (Contributions(a) + Contributions(b))[i]
    {
      if i < |a| {
        assert (a + b)[i] == a[i];
      } else {
        assert (a + b)[i] == b[i - |a|];
      }
    }
  }

  lemma GatheredIgnoresOthers(a: seq<Inbound>, e: Inbound, b: seq<Inbound>)
    requires !IsAudioDelta(e)
    ensures Gathered(a + [e] + b) == Gathered(a + b)
  {
    var ca, cb := Contributions(a), Contributions(b);
    var none: seq<Byte> := [];
    var one: seq<seq<Byte>> := [none];
    assert Concat(Contributions(a + [e] + b)) == Concat(ca) + Concat(cb) by {
      ContributionsAppend(a, [e]);
      ContributionsAppend(a + [e], b);
      assert Contributions([e]) == one;
      ConcatAppend(ca + one, cb);
      ConcatAppend(ca, one);
      assert Concat(one) == none + Concat<Byte>([]);
    }
    assert Concat(Contributions(a + b)) == Concat(ca) + Concat(cb) by {
      ContributionsAppend(a, b);
      ConcatAppend(ca, cb);
    }
  }

  /**
   * A turn answered by two audio deltas of one item and `response.done` yields the two
   * deltas back to back.
   */
  lemma TwoDeltaTurn(itemId: string, d1: seq<Byte>, d2: seq<Byte>)
    ensures var events := [Message(AudioDeltaType, Some(itemId), Some(d1)),
                           Message(AudioDeltaType, Some(itemId), Some(d2)),
                           Message(ResponseDoneType, None, None)];
      GatherStop(events) == 2 && Gathered(events[..2]) == d1 + d2
  {
    var events := [Message(AudioDeltaType, Some(itemId), Some(d1)),
                   Message(AudioDeltaType, Some(itemId), Some(d2)),
                   Message(ResponseDoneType, None, None)];
    assert events[1..][1..][0] == events[2];
    assert GatherStop(events[1..][1..]) == 0;
    assert GatherStop(events[1..]) == 1;
    assert events[..2][..1] == events[..1];
    assert events[..1][..0] == [];
    assert Gathered(events[..1]) == d1;
  }

  // ---- the whole relay ----

  /**
   * `stream_to_azure_and_back(frames)`: builds the client from the environment (endpoint
   * required, api key optional), connects to the deployment named in the environment,
   * sends the session update and the turn, then gathers the response.
   */
  method StreamToAzureAndBack(env: map<string, string>, frames: seq<seq<Byte>>, inbound: seq<Inbound>,
                              requestId: string)
      returns (sent: seq<Outbound>, r: Result<seq<Byte>, BatchError>)
    ensures EndpointVar !in env ==> r == Failure(MissingSetting(EndpointVar)) && sent == []
    ensures EndpointVar in env && ApiKeyVar !in env ==>
      r == Failure(ClientRejected(MissingCredentials)) && sent == []
    ensures EndpointVar in env && ApiKeyVar in env && DeploymentVar !in env ==>
      r == Failure(MissingSetting(DeploymentVar)) && sent == []
    ensures EndpointVar in env && ApiKeyVar in env && DeploymentVar in env && env[DeploymentVar] == "" ==>
      r == Failure(ConnectRejected(MissingModel)) && sent == []
    ensures EndpointVar in env && ApiKeyVar in env && DeploymentVar in env && env[DeploymentVar] != "" ==>
      sent == [SessionUpdate] + TurnMessages(frames) &&
      var k := GatherStop(inbound);
      if k < |inbound| && inbound[k].Undecodable? then r == Failure(MalformedEvent)
      else r == Success(Gathered(inbound[..k]))
  {
    sent := [];
    if EndpointVar !in env {
      return [], Failure(MissingSetting(EndpointVar));
    }
    var config := Configure(Some(env[EndpointVar]), Some(DefaultApiVersion), EnvGet(env, ApiKeyVar), None, env);
    assert config.Success? <==> ApiKeyVar in env;
    if config.Failure? {
      assert config.error == MissingCredentials;
      return [], Failure(ClientRejected(config.error));
    }
    var client := new Client(config.value);
    if DeploymentVar !in env {
      return [], Failure(MissingSetting(DeploymentVar));
    }
    var conn := client.Connect(env[DeploymentVar], requestId);
    if conn.Failure? {
      return [], Failure(ConnectRejected(conn.error));
    }
    assert env[DeploymentVar] != "";
    sent := [SessionUpdate];
    var turn := SendFrames(frames);
    sent := sent + turn;
    r := Gather(inbound);
  }
}
