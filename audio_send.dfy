/**
 * `send_audio` and the start of `stream_audio_and_receive_response` in
 * `src/modes/audio_mode.py`: the microphone is a finite sequence of read
 * results (a PCM block, or None when `stream.read` raised) and the connection
 * records the messages sent on it.
 */
module AudioSend {
  import opened Errors
  import opened Json
  import opened AudioEvents
  import AudioReceive
  import Base64

  /** The blocks that were read successfully, in read order. */
  function Captured(readings: seq<Option<seq<Base64.byte>>>): seq<seq<Base64.byte>>
  {
    if readings == [] then []
    else Captured(readings[..|readings| - 1]) + OptionToSeq(readings[|readings| - 1])
  }

  /** The number of readings that failed. */
  function FailedReads(readings: seq<Option<seq<Base64.byte>>>): nat
  {
    if readings == [] then 0
    else FailedReads(readings[..|readings| - 1]) + (if readings[|readings| - 1].None? then 1 else 0)
  }

  /** Capturing two stretches of readings one after the other keeps their blocks in that order. */
  lemma {:induction false} CapturedAppend(a: seq<Option<seq<Base64.byte>>>, b: seq<Option<seq<Base64.byte>>>)
    ensures Captured(a + b) == Captured(a) + Captured(b)
    decreases |b|
  {
    if b == [] {
      assert a + b == a;
    } else {
      var b' := b[..|b| - 1];
      assert (a + b)[..|a + b| - 1] == a + b';
      CapturedAppend(a, b');
    }
  }

  /** Every read yields either one block or one failure: none is lost, none doubled. */
  lemma {:induction false} CapturedCount(readings: seq<Option<seq<Base64.byte>>>)
    ensures |Captured(readings)| + FailedReads(readings) == |readings|
    decreases |readings|
  {
    if readings != [] {
      CapturedCount(readings[..|readings| - 1]);
    }
  }

  /**
   * The loop of `send_audio`: a failed read sends nothing; each block read is
   * sent as one `input_audio_buffer.append` event, in read order, and the
   * receiver decodes the k-th event back to the k-th block.
   */
  method SendAudio(readings: seq<Option<seq<Base64.byte>>>) returns (sent: seq<Json>)
    ensures |sent| == |Captured(readings)|
    ensures forall k :: 0 <= k < |sent| ==> sent[k] == AppendEvent(Captured(readings)[k])
    ensures forall k :: 0 <= k < |sent| ==>
      && TypeOf(sent[k]) == Some(AppendType)
      && TextField(sent[k], "audio").Some?
      && Base64.Decode(TextField(sent[k], "audio").value) == Ok(Captured(readings)[k])
  {
    sent := [];
    var i := 0;
    while i < |readings|
      invariant 0 <= i <= |readings|
      invariant |sent| == |Captured(readings[..i])|
      invariant forall k :: 0 <= k < |sent| ==> sent[k] == AppendEvent(Captured(readings[..i])[k])
    {
      assert readings[..i + 1][..i] == readings[..i];
      var audioData := readings[i];
      if audioData.None? {
        assert Captured(readings[..i + 1]) == Captured(readings[..i]) + [];
        i := i + 1;
        continue;
      }
      var audioEvent := AppendEvent(audioData.value);
      sent := sent + [audioEvent];
      i := i + 1;
    }
    assert readings[..i] == readings;
  }

  /**
   * The session as far as the protocol goes: the handshake is sent first and
   * once, then the audio events, while the receive loop consumes the inbound
   * messages. The two directions are independent; only each one's own order
   * is modelled.
   */
  method StreamSession(readings: seq<Option<seq<Base64.byte>>>, inbound: seq<Message>)
    returns (outbound: seq<Json>, utterances: seq<string>, playback: seq<seq<Base64.byte>>, ending: AudioReceive.Ending)
    ensures |outbound| == 1 + |Captured(readings)|
    ensures outbound[0] == InitRequest()
    ensures forall k :: 0 <= k < |outbound| ==> (TypeOf(outbound[k]) == Some(ResponseCreateType) <==> k == 0)
    ensures forall k :: 1 <= k < |outbound| ==> outbound[k] == AppendEvent(Captured(readings)[k - 1])
    ensures utterances == AudioReceive.Replay(inbound).utterances
    ensures playback == AudioReceive.Replay(inbound).playback
    ensures ending == AudioReceive.Replay(inbound).ending
  {
    outbound := [InitRequest()];
    var sent := SendAudio(readings);
    outbound := outbound + sent;
    forall k | 1 <= k < |outbound|
      ensures TypeOf(outbound[k]) != Some(ResponseCreateType)
    {
      HandshakeIsNotAudio(Captured(readings)[k - 1]);
    }
    utterances, playback, ending := AudioReceive.ReceiveAudio(inbound);
  }
}
