/**
 * Inbound service events after JSON decoding. Only the fields the relay reads are
 * kept; base64 payloads are held already decoded.
 */
module Events {
  import opened Wrappers
  import opened Pcm

  const AudioDeltaType: string := "response.audio.delta"
  const ResponseDoneType: string := "response.done"

  /**
   * A raw inbound message: either text that `json.loads` rejects, or an object with its
   * "type" (an absent type behaves like any other unrecognised type), its "item_id" and
   * the decoded bytes of its "delta" when present.
   */
  datatype Inbound =
    | Undecodable
    | Message(kind: string, itemId: Option<string>, delta: Option<seq<Byte>>)

  predicate IsAudioDelta(e: Inbound)
  {
    e.Message? && e.kind == AudioDeltaType
  }

  predicate IsResponseDone(e: Inbound)
  {
    e.Message? && e.kind == ResponseDoneType
  }
}
