# Voice Live relay core, modelled in Dafny

This project models the audio core of a speech-to-speech relay built on the Azure
Voice Live realtime service:

- **Playback queue** (`Playback`). `AudioPlayerAsync` holds a queue of int16 chunks
  of any length. `add_data` appends to it. The device callback pulls fixed-size
  blocks from its head, puts back the rest of a partly used chunk, and pads with
  silence.
- **Live receive loop** (`LiveReceive`). `receive_audio_and_playback` reads inbound
  events. It hands every `response.audio.delta` to the player and tracks the last
  item id. A pass ends at `response.done` or at an undecodable event, and the
  enclosing `while True` starts the next pass.
- **Client** (`VoiceLiveClient`). `AsyncAzureVoiceLive` checks its endpoint and
  credentials in the constructor, taking what is missing from the environment.
  `connect` builds the realtime `wss://` URL and the request-id and auth headers.
- **Batch relay** (`BatchRelay`, `Framing`). `chunk_pcm_20ms` pads PCM to whole
  20 ms frames (960 bytes at 24 kHz, int16 mono) and cuts it.
  `stream_to_azure_and_back` sends the session update, one append per frame,
  commit and `response.create`. It then concatenates the response audio deltas
  until `response.done`.

Supporting modules:

- `Wrappers` holds `Option` and `Result`.
- `Pcm` holds bytes, int16 samples and their little-endian coding.
- `Events` holds the decoded inbound event: undecodable, or a message with a type,
  an optional item id and an optional delta.

The network connection is the finite sequence of inbound events it delivers,
already parsed from JSON and base64. Outbound traffic is a log of messages. The
process environment is a map. The token credential and the request id are
parameters.

### Behaviour worth noting

- **Decode failures.** Nothing counts decode failures. An undecodable event ends
  the current `async for` pass and `while True` starts the next, so every one is
  skipped (`LiveReceive.SessionQueued`).
- **Credentials.** Only a non-empty api key passed together with a token credential
  is rejected. An empty key with a credential is accepted
  (`VoiceLiveClient.ConfigureDuplicateCredentials`).
- **Missing deltas.** In the live loop a missing delta becomes `b""`, and an empty
  chunk is queued. The batch loop skips empty and missing deltas.
- **Odd-length deltas.** numpy rejects a delta of odd byte length. Its exception
  ends the whole live receive session, not just the pass.

## Model

| member | source | states |
|---|---|---|
| Pcm.DecodeInt16 | api/azure_voice_live.py:219 | an even-length buffer decodes to half as many int16 samples |
| Pcm.DecodeEncode | api/azure_voice_live.py:219 | decoding the little-endian bytes of any samples gives those samples back |
| Pcm.EncodeDecode | api/azure_voice_live.py:219 | an even-length buffer decoded and re-encoded is the same buffer, so decoding loses nothing |
| Pcm.ZeroBytes | api/server.py:25 | the padding is n bytes, all zero |
| Pcm.Silence | api/azure_voice_live.py:214 | `ZeroBytes` over samples: the filler is n samples, all zero |
| Framing.FrameConstants | api/server.py:8-11 | a frame is 24000 * 20 / 1000 = 480 samples and 960 bytes |
| Framing.Slices | api/server.py:26 | a padded buffer gives len/960 slices of exactly 960 bytes each |
| Framing.PaddedLength | api/server.py:23-25 | padding brings the length up to exactly 960 times the frame count |
| Framing.ChunkPcm20ms | api/server.py:22-26 | ceil(len/960) frames, each exactly 960 bytes |
| Framing.SlicesConcat | api/server.py:26 | joining the slices gives back the padded buffer |
| Framing.ChunkPcm20msRoundTrip | api/server.py:22-26 | the frames joined are the input followed by fewer than 960 zero bytes; padding is zero iff the length is a multiple of 960; the input is a prefix of the result |
| Framing.ChunkPcm20msEmpty | api/server.py:22-26 | no frames iff the input is empty |
| Playback.Head | api/azure_voice_live.py:210 | item[:n] clamps: it keeps min(n, len) leading samples |
| Playback.Taken | api/azure_voice_live.py:207-212 | the callback loop never takes more samples than the device asked for |
| Playback.Consume | api/azure_voice_live.py:207-212 | the queue the callback loop leaves is never longer than before, and a request for nothing leaves it as it was |
| Playback.Pulled | api/azure_voice_live.py:213-215 | the block written is exactly `frames` samples long |
| Playback.PopStep | api/azure_voice_live.py:208-212 | one turn of the callback loop leaves the samples still to take, and the queue finally left, unchanged |
| Playback.TakenIsPrefix | api/azure_voice_live.py:207-212 | the samples taken are the first min(frames, queued) samples of the whole queue, in order |
| Playback.ConsumeLeavesRest | api/azure_voice_live.py:207-212 | the queue left behind holds exactly the samples not taken, in order |
| Playback.ConsumeShape | api/azure_voice_live.py:211-212 | the new queue is an untouched suffix of the old one, possibly headed by the non-empty rest of one partly used chunk |
| Playback.TakenThenRest | api/azure_voice_live.py:207-212 | samples taken plus samples left equal the samples queued; the queued total drops by exactly the amount taken |
| Playback.PulledBlock | api/azure_voice_live.py:213-215 | the block written is exactly `frames` samples: queued samples first, then zeros |
| Playback.PartialPullKeepsOrder | api/azure_voice_live.py:209-212 | with two chunks and a short block, the first chunk's rest stays ahead of the second chunk |
| Playback.AudioPlayer.constructor | api/azure_voice_live.py:192-202 | a new player has an empty queue and is not playing |
| Playback.AudioPlayer.Callback | api/azure_voice_live.py:204-215 | outdata receives the pulled block and the queue becomes what the loop leaves |
| Playback.AudioPlayer.AddData | api/azure_voice_live.py:217-222 | an even-length buffer is decoded and appended at the tail and playback is started; an odd-length one is refused and nothing changes |
| Playback.AudioPlayer.Start | api/azure_voice_live.py:224-226 | the player is marked playing |
| Playback.AudioPlayer.Stop | api/azure_voice_live.py:228-232 | the queue is cleared and the player is not playing |
| Playback.PullAfterStop | api/azure_voice_live.py:228-232 | after stop, the next callback block is all silence and the queue stays empty |
| LiveReceive.StepOf | api/azure_voice_live.py:272-284 | an event stops the pass iff it is undecodable, `response.done` or an odd-length delta; it is skipped iff it is a decodable event of another type; a delivered chunk is the decoded delta of an audio delta event; the remembered id becomes the delta's item id |
| LiveReceive.Pass | api/azure_voice_live.py:270-284 | a pass reads at most the events there are, and at least one if there is any |
| LiveReceive.Advance | api/azure_voice_live.py:270-284 | reading the next event advances the pass by the step its type determines |
| LiveReceive.StopIndex | api/azure_voice_live.py:270-284 | the first undecodable, `response.done` or odd-length audio delta event; every earlier event is none of these |
| LiveReceive.DecodeEach | api/azure_voice_live.py:281-282 | one decoded chunk per payload |
| LiveReceive.PassQueuesDeltas | api/azure_voice_live.py:277-282 | a pass queues the decoded deltas of the audio delta events before its stop, in order; those deltas all have even length; no other event type queues anything |
| LiveReceive.PayloadsBeforeStopAreEven | api/azure_voice_live.py:281-282 | every delta before the stop has even length |
| LiveReceive.PassCons | api/azure_voice_live.py:277-282 | a first event that does not stop the pass queues its delta, if any, ahead of the rest |
| LiveReceive.PassEndsAtStop | api/azure_voice_live.py:271-284 | a pass reads up to and including its stop event, and ends for the reason that event gives |
| LiveReceive.PassLastItem | api/azure_voice_live.py:277-279 | the remembered item id is the item id of the last audio delta read, including a rejected one |
| LiveReceive.HandleEvent | api/azure_voice_live.py:271-284 | one event does what the step says: stop with its reason and the queue untouched, skip, or queue the decoded delta, remember its item id and start playback |
| LiveReceive.ReceivePass | api/azure_voice_live.py:270-284 | the loop matches the pass: item id, end reason, events read, and the player's queue extended by the pass's chunks |
| LiveReceive.SessionQueued | api/azure_voice_live.py:269-284 | a session queues at most one chunk per event |
| LiveReceive.PassThenSession | api/azure_voice_live.py:269-288 | a session is one pass, then the session on the remaining events unless add_data raised |
| LiveReceive.SessionStep | api/azure_voice_live.py:269-288 | after one more pass, what is queued plus what the rest of the session queues is unchanged |
| LiveReceive.SessionIgnoresOtherEvents | api/azure_voice_live.py:277-284 | inserting an event that is not an audio delta changes nothing the session queues |
| LiveReceive.ReceiveAudioAndPlayback | api/azure_voice_live.py:263-291 | the fresh player ends up holding every accepted audio delta of the session, in order, across `response.done` and decode failures; it plays iff something was queued |
| VoiceLiveClient.Configure | api/azure_voice_live.py:129-155 | a constructed client has a key or a credential, never a non-empty key together with a credential, and its token is exactly the token its credential yields |
| VoiceLiveClient.ConfigureMissingEndpoint | api/azure_voice_live.py:129-135 | construction fails for the endpoint iff neither the argument nor the environment gives one |
| VoiceLiveClient.ConfigureMissingCredentials | api/azure_voice_live.py:137-143 | with an endpoint, it fails for credentials iff no key argument, no credential and no key in the environment |
| VoiceLiveClient.ConfigureDuplicateCredentials | api/azure_voice_live.py:145-148 | with an endpoint, it fails as duplicate iff a non-empty key and a credential are both passed |
| VoiceLiveClient.ConfigurePrecedence | api/azure_voice_live.py:150-155 | arguments win over the environment; a client has a key or a credential; it has a token iff it has a credential |
| VoiceLiveClient.RStripSlash | api/azure_voice_live.py:176 | the result is a prefix of the input without a trailing '/', and everything removed is '/' |
| VoiceLiveClient.ReplaceHttps | api/azure_voice_live.py:177 | the replacement never lengthens the string |
| VoiceLiveClient.ReplaceFirst | api/azure_voice_live.py:177 | the first "https://" anywhere in the string becomes "wss://", the text before it is kept and the rest is replaced in turn |
| VoiceLiveClient.ReplacedPrefix | api/azure_voice_live.py:177 | a replaced string starts with a 'w'-free text only if the original does |
| VoiceLiveClient.ReplaceHttpsLeavesNone | api/azure_voice_live.py:177 | no "https://" is left after the replacement, not even one formed across a replacement |
| VoiceLiveClient.ReplaceHttpsNoOccurrence | api/azure_voice_live.py:177 | a string without "https://" is unchanged |
| VoiceLiveClient.ReplaceHttpsScheme | api/azure_voice_live.py:177 | a leading "https://" becomes "wss://" |
| VoiceLiveClient.RealtimeUrl | api/azure_voice_live.py:176 | the URL starts with the endpoint without trailing slashes and ends with the model name |
| VoiceLiveClient.ConnectUrl | api/azure_voice_live.py:176-177 | the URL `connect` uses holds no "https://" |
| VoiceLiveClient.ConnectUrlShape | api/azure_voice_live.py:176-177 | the connect URL holds no "https://"; it equals the plain realtime URL when that has none, and an https endpoint becomes wss |
| VoiceLiveClient.ConnectionFor | api/azure_voice_live.py:176-186 | the connection goes to the connect URL and carries two headers, the request id first |
| VoiceLiveClient.ConnectionAuth | api/azure_voice_live.py:179-181 | the headers are the request id, then `Authorization: Bearer <token>` when the credential's token is non-empty, otherwise `api-key` with the configured key |
| VoiceLiveClient.Client.constructor | api/azure_voice_live.py:150-154 | a new client, built from a configuration whose token is its credential's, keeps that configuration and has no connection |
| VoiceLiveClient.Client.Connect | api/azure_voice_live.py:168-187 | a second connect fails and leaves the connection alone; an empty model fails; otherwise it records and returns the connection for the URL and headers |
| BatchRelay.TurnMessages | api/server.py:58-66 | one append per frame, in frame order, then commit, then response.create |
| BatchRelay.TurnCarriesFrames | api/server.py:58-63 | the appends of a turn carry the frames back to back |
| BatchRelay.UploadCarriesPcm | api/server.py:58-63 | the service receives the uploaded PCM followed by fewer than 960 zero bytes |
| BatchRelay.SendFrames | api/server.py:58-66 | the sending loop emits exactly the turn's messages, in order |
| BatchRelay.GatherStop | api/server.py:68-75 | the first undecodable or `response.done` event; no earlier event is either |
| BatchRelay.GatheredDelta | api/server.py:70-73 | an event adds bytes only when it is an audio delta, and then exactly its delta |
| BatchRelay.Gathered | api/server.py:68-73 | the gathered audio is the contributions of the events joined in order |
| BatchRelay.Gather | api/server.py:68-77 | failure if an undecodable event comes before `response.done`, otherwise the concatenated non-empty deltas before it |
| BatchRelay.GatheringStopsAtDone | api/server.py:74-75 | nothing after the first `response.done` is read |
| BatchRelay.GatheredIgnoresOthers | api/server.py:70-73 | an event that is not an audio delta adds nothing to the gathered audio |
| BatchRelay.TwoDeltaTurn | api/server.py:68-77 | two deltas then `response.done` give the two deltas back to back |
| BatchRelay.StreamToAzureAndBack | api/server.py:37-77 | a missing endpoint, missing api key, missing deployment or empty deployment fails in that order with nothing sent; otherwise the session update and the turn are sent and the response is gathered |

## Left out

- The websocket transport: connecting, the send and receive calls and their errors (`WebSocketException`, `ConnectionResetError`), and closing. Inbound traffic is a finite event sequence and outbound traffic a message log.
- JSON and base64 coding. Events arrive decoded. A message whose JSON is not an object, or whose delta is not valid base64, is not modelled.
- The `session.update` payload. The batch relay sends it as one opaque message.
- sounddevice streams: opening, `stream.start`, `stream.stop` and `terminate`. `playing` records whether the stream was started since the last `stop`.
- The device callback's `time` and `status` parameters, which the callback ignores.
- LiveReceive.ReceiveAudioAndPlayback: when the connection closes, the session ends. In the code the `while True` would re-enter `async for` on the closed connection.
- Concurrency. The callback thread and the receive task interleave under a lock; the model runs each method on its own, atomically. `listen_and_send_audio`, `read_keyboard_and_quit` and the first-completed orchestration in `main` are not part of this model.
- `get_token` and `refresh_token`. The credential is reduced to the token it yields, and the request id (`uuid4`) is a parameter.
- The `isinstance(model, str)` check in `connect`. The model's type is always a string here.
- `audio_to_pcm_24k_mono` (ffmpeg decoding), `pcm_to_wav` and the `/s2s` HTTP route around `stream_to_azure_and_back`.
- The backend service under backend/ is not part of this model.
- `SAMPLES_PER_FRAME` is computed in floating point in the source. The model uses the integer 480, which `Framing.FrameConstants` ties to 24000 * 20 / 1000.
- Pcm.DecodeInt16: assumes little-endian int16, numpy's native order on the usual hosts.
