/**
 * The realtime wire protocol of `src/modes/audio_mode.py`: the event types the
 * client sends and recognises, and the two outbound messages it builds.
 */
module AudioEvents {
  import opened Errors
  import opened Json
  import Base64

  /** An inbound message after `json.loads`: a dict from keys to values. */
  type Message = map<string, Json>

  const TranscriptDeltaType: string := "response.audio_transcript.delta"
  const TranscriptDoneType: string := "response.audio_transcript.done"
  const AudioDeltaType: string := "response.audio.delta"
  const AppendType: string := "input_audio_buffer.append"
  const ResponseCreateType: string := "response.create"

  /** The fixed handshake settings ("Please support the user.", voice "echo"). */
  const Instructions: string := "ユーザーをサポートしてください。"
  const Voice: string := "echo"
  const Modalities: seq<string> := ["audio", "text"]

  /** The `type` field of an outbound message, if it has a text one. */
  function TypeOf(j: Json): Option<string>
  {
    TextField(j, "type")
  }

  /**
   * `{"type": "input_audio_buffer.append", "audio": <base64 of pcm>}`: exactly
   * these two fields, and the receiver gets the block back by decoding `audio`.
   */
  function AppendEvent(pcm: seq<Base64.byte>): (e: Json)
    ensures e.Object? && e.fields.Keys == {"type", "audio"}
    ensures TypeOf(e) == Some(AppendType)
    ensures TextField(e, "audio").Some?
    ensures Base64.Decode(TextField(e, "audio").value) == Ok(pcm)
  {
    Base64.DecodeEncode(pcm);
    Object(map["type" := Str(AppendType), "audio" := Str(Base64.Encode(pcm))])
  }

  /**
   * `init_request`: a `response.create` whose `response` object asks for audio
   * and text output with the fixed instructions and voice, and nothing else.
   */
  function InitRequest(): (e: Json)
    ensures e.Object? && e.fields.Keys == {"type", "response"}
    ensures TypeOf(e) == Some(ResponseCreateType)
    ensures e.fields["response"].Object?
    ensures e.fields["response"].fields.Keys == {"modalities", "instructions", "voice"}
    ensures e.fields["response"].fields["modalities"] == Array([Str(Modalities[0]), Str(Modalities[1])])
    ensures TextField(e.fields["response"], "instructions") == Some(Instructions)
    ensures TextField(e.fields["response"], "voice") == Some(Voice)
  {
    Object(map[
      "type" := Str(ResponseCreateType),
      "response" := Object(map[
        "modalities" := Array([Str("audio"), Str("text")]),
        "instructions" := Str(Instructions),
        "voice" := Str(Voice)
      ])
    ])
  }

  /** The handshake can never be mistaken for an audio event. */
  lemma HandshakeIsNotAudio(pcm: seq<Base64.byte>)
    ensures InitRequest() != AppendEvent(pcm)
    ensures TypeOf(InitRequest()) != TypeOf(AppendEvent(pcm))
  {
    assert ResponseCreateType[0] != AppendType[0];
  }
}
