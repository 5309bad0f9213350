/**
 * `receive_audio` of `src/modes/audio_mode.py`: the loop that reads inbound
 * messages one at a time, assembles transcript fragments into utterances
 * shown with `st.write`, and plays decoded audio on the output stream.
 *
 * The connection is the finite sequence of messages it delivers before it
 * closes; each `st.write` appends to a list of utterances and each
 * `output_stream.write` to a list of played PCM blocks.
 */
module AudioReceive {
  import opened Errors
  import opened Json
  import opened AudioEvents
  import Base64

  predicate IsTranscriptDelta(m: Message) { HasText(m, "type", TranscriptDeltaType) }
  predicate IsTranscriptDone(m: Message) { HasText(m, "type", TranscriptDoneType) }
  predicate IsAudioDelta(m: Message) { HasText(m, "type", AudioDeltaType) }

  /** The audio a message carries: a non-empty base64 text under `delta` of an audio delta. */
  function Frame(m: Message): (r: Option<seq<Base64.byte>>)
  {
    if IsAudioDelta(m) && "delta" in m && m["delta"].Str? && m["delta"].s != ""
       && Base64.Decode(m["delta"].s).Ok?
    then Some(Base64.Decode(m["delta"].s).value)
    else None
  }

  /** The transcript text a message contributes: the `delta` text of a transcript delta. */
  function Fragment(m: Message): string
  {
    if IsTranscriptDelta(m) && "delta" in m && m["delta"].Str? then m["delta"].s else ""
  }

  /** The effect of one message on the transcript buffer and the two outputs. */
  datatype Reaction =
    | Handled(buffer: string, utterance: Option<string>, playback: Option<seq<Base64.byte>>)
    | Raised(fault: Fault)

  /**
   * One pass through the loop body. A transcript delta appends its text; a
   * transcript done emits the whole buffer and clears it; then any message
   * with a `delta` key whose type is an audio delta and whose payload is
   * truthy has that payload decoded and played. Python exceptions end the loop.
   */
  function Dispatch(buffer: string, m: Message): (r: Reaction)
    ensures IsTranscriptDelta(m) ==> (r.Handled? <==> "delta" in m && m["delta"].Str?)
    ensures IsTranscriptDelta(m) && r.Handled? ==>
      r == Handled(buffer + m["delta"].s, None, None)
    ensures IsTranscriptDone(m) ==> r == Handled("", Some(buffer), None)
    ensures !IsTranscriptDelta(m) && !IsTranscriptDone(m) && r.Handled? ==>
      r.buffer == buffer && r.utterance == None
    ensures r.Handled? ==> r.playback == Frame(m)
    ensures r.Raised? <==>
      || (IsTranscriptDelta(m) && !("delta" in m && m["delta"].Str?))
      || ("delta" in m && "type" !in m)
      || (IsAudioDelta(m) && "delta" in m && Truthy(m["delta"])
          && (!m["delta"].Str? || Base64.Decode(m["delta"].s).Err?))
    ensures r.Raised? && !IsTranscriptDelta(m) && "type" in m ==>
      r.fault == (if m["delta"].Str? then BinasciiError else TypeError)
  {
    if IsTranscriptDelta(m) && "delta" !in m then Raised(KeyError("delta"))
    else if IsTranscriptDelta(m) && !m["delta"].Str? then Raised(TypeError)
    else
      var buffer' :=
        if IsTranscriptDelta(m) then buffer + m["delta"].s
        else if IsTranscriptDone(m) then ""
        else buffer;
      var utterance := if !IsTranscriptDelta(m) && IsTranscriptDone(m) then Some(buffer) else None;
      if "delta" !in m then Handled(buffer', utterance, None)
      else if "type" !in m then Raised(KeyError("type"))
      else if m["type"] != Str(AudioDeltaType) || !Truthy(m["delta"]) then Handled(buffer', utterance, None)
      else if !m["delta"].Str? then Raised(TypeError)
      else match Base64.Decode(m["delta"].s)
        case Err(f) => Raised(f)
        case Ok(pcm) => Handled(buffer', utterance, Some(pcm))
  }

  /** How the receive loop ended: the connection closed, or a message raised. */
  datatype Ending = ConnectionClosed | Stopped(at: nat, fault: Fault)

  datatype Trace = Trace(buffer: string, utterances: seq<string>, playback: seq<seq<Base64.byte>>, ending: Ending)

  /** The loop run over a sequence of messages, from an empty buffer. */
  function Replay(inbound: seq<Message>): (t: Trace)
    ensures t.ending.Stopped? ==> t.ending.at < |inbound|
    decreases |inbound|
  {
    if inbound == [] then Trace("", [], [], ConnectionClosed)
    else
      var t := Replay(inbound[..|inbound| - 1]);
      if t.ending.Stopped? then t
      else match Dispatch(t.buffer, inbound[|inbound| - 1])
        case Raised(f) => t.(ending := Stopped(|inbound| - 1, f))
        case Handled(b, u, p) => Trace(b, t.utterances + OptionToSeq(u), t.playback + OptionToSeq(p), ConnectionClosed)
  }

  /** Once a message has raised, later messages are never read. */
  lemma {:induction false} StopIsFinal(inbound: seq<Message>, n: nat)
    requires n <= |inbound|
    requires Replay(inbound[..n]).ending.Stopped?
    ensures Replay(inbound) == Replay(inbound[..n])
    decreases |inbound| - n
  {
    if n == |inbound| {
      assert inbound[..n] == inbound;
    } else {
      assert inbound[..n + 1][..n] == inbound[..n];
      StopIsFinal(inbound, n + 1);
    }
  }

  /**
   * The loop of `receive_audio` over the messages the connection delivers:
   * what it shows, what it plays and how it ends are those of `Replay`.
   */
  method ReceiveAudio(inbound: seq<Message>) returns (utterances: seq<string>, playback: seq<seq<Base64.byte>>, ending: Ending)
    ensures utterances == Replay(inbound).utterances
    ensures playback == Replay(inbound).playback
    ensures ending == Replay(inbound).ending
  {
    var fullText := "";
    utterances, playback := [], [];
    var i := 0;
    while i < |inbound|
      invariant 0 <= i <= |inbound|
      invariant Replay(inbound[..i]) == Trace(fullText, utterances, playback, ConnectionClosed)
    {
      var response := inbound[i];
      assert inbound[..i + 1][..i] == inbound[..i];
      if "type" in response && response["type"] == Str(TranscriptDeltaType) {
        if "delta" !in response {
          ending := Stopped(i, KeyError("delta"));
          StopIsFinal(inbound, i + 1);
          return;
        }
        var text := response["delta"];
        if !text.Str? {
          ending := Stopped(i, TypeError);
          StopIsFinal(inbound, i + 1);
          return;
        }
        fullText := fullText + text.s;
      } else if "type" in response && response["type"] == Str(TranscriptDoneType) {
        utterances := utterances + [fullText];
        fullText := "";
      }
      if "delta" in response {
        if "type" !in response {
          ending := Stopped(i, KeyError("type"));
          StopIsFinal(inbound, i + 1);
          return;
        }
        if response["type"] == Str(AudioDeltaType) {
          var audio := response["delta"];
          if Truthy(audio) {
            if !audio.Str? {
              ending := Stopped(i, TypeError);
              StopIsFinal(inbound, i + 1);
              return;
            }
            var pcm := Base64.Decode(audio.s);
            if pcm.Err? {
              ending := Stopped(i, pcm.fault);
              StopIsFinal(inbound, i + 1);
              return;
            }
            playback := playback + [pcm.value];
          }
        }
      }
      i := i + 1;
    }
    ending := ConnectionClosed;
    assert inbound[..i] == inbound;
  }

  /** A run that raised did so at its first failing message and kept the outputs made before it. */
  lemma {:induction false} StoppedAtFault(inbound: seq<Message>)
    requires Replay(inbound).ending.Stopped?
    ensures var t := Replay(inbound);
      var before := Replay(inbound[..t.ending.at]);
      && before.ending == ConnectionClosed
      && Dispatch(before.buffer, inbound[t.ending.at]) == Raised(t.ending.fault)
      && t.utterances == before.utterances
      && t.playback == before.playback
    decreases |inbound|
  {
    var init := inbound[..|inbound| - 1];
    var at := Replay(inbound).ending.at;
    if Replay(init).ending.Stopped? {
      StoppedAtFault(init);
      assert init[..at] == inbound[..at];
    } else {
      assert at == |inbound| - 1;
      assert inbound[..at] == init;
    }
  }

  /** Reference definitions, message by message. */
  function DoneCount(inbound: seq<Message>): nat
  {
    if inbound == [] then 0
    else DoneCount(inbound[..|inbound| - 1]) + (if IsTranscriptDone(inbound[|inbound| - 1]) then 1 else 0)
  }

  function Fragments(inbound: seq<Message>): string
  {
    if inbound == [] then ""
    else Fragments(inbound[..|inbound| - 1]) + Fragment(inbound[|inbound| - 1])
  }

  function Frames(inbound: seq<Message>): seq<seq<Base64.byte>>
  {
    if inbound == [] then []
    else Frames(inbound[..|inbound| - 1]) + OptionToSeq(Frame(inbound[|inbound| - 1]))
  }

  /** The position just after the last transcript done, 0 when there is none. */
  function LastDone(inbound: seq<Message>): (k: nat)
    ensures k <= |inbound|
  {
    if inbound == [] then 0
    else if IsTranscriptDone(inbound[|inbound| - 1]) then |inbound|
    else LastDone(inbound[..|inbound| - 1])
  }

  function Concat(texts: seq<string>): string
  {
    if texts == [] then "" else Concat(texts[..|texts| - 1]) + texts[|texts| - 1]
  }

  /** The last message of a run that read every message was handled, on the state the others left. */
  lemma ReplayLast(inbound: seq<Message>)
    requires inbound != [] && Replay(inbound).ending == ConnectionClosed
    ensures var t0 := Replay(inbound[..|inbound| - 1]);
      var r := Dispatch(t0.buffer, inbound[|inbound| - 1]);
      && t0.ending == ConnectionClosed
      && r.Handled?
      && Replay(inbound) == Trace(r.buffer, t0.utterances + OptionToSeq(r.utterance),
                                  t0.playback + OptionToSeq(r.playback), ConnectionClosed)
  {
  }

  /** One utterance is shown per transcript done. */
  lemma {:induction false} UtteranceCount(inbound: seq<Message>)
    requires Replay(inbound).ending == ConnectionClosed
    ensures |Replay(inbound).utterances| == DoneCount(inbound)
    decreases |inbound|
  {
    if inbound != [] {
      ReplayLast(inbound);
      UtteranceCount(inbound[..|inbound| - 1]);
    }
  }

  /**
   * The utterances shown, followed by the buffer, spell every transcript
   * fragment exactly once, in arrival order: nothing lost, nothing repeated.
   */
  lemma {:induction false} TranscriptConserved(inbound: seq<Message>)
    requires Replay(inbound).ending == ConnectionClosed
    ensures Concat(Replay(inbound).utterances) + Replay(inbound).buffer == Fragments(inbound)
    decreases |inbound|
  {
    if inbound != [] {
      var init := inbound[..|inbound| - 1];
      var t0 := Replay(init);
      ReplayLast(inbound);
      TranscriptConserved(init);
      var m := inbound[|inbound| - 1];
      if IsTranscriptDone(m) {
        var u := t0.utterances + [t0.buffer];
        assert u[..|u| - 1] == t0.utterances;
      } else {
        assert Replay(inbound).buffer == t0.buffer + Fragment(m);
        assert Replay(inbound).utterances == t0.utterances + [] == t0.utterances;
        assert Concat(t0.utterances) + (t0.buffer + Fragment(m)) == (Concat(t0.utterances) + t0.buffer) + Fragment(m);
      }
    }
  }

  /** The buffer holds exactly the fragments received since the last transcript done. */
  lemma {:induction false} PendingSinceDone(inbound: seq<Message>)
    requires Replay(inbound).ending == ConnectionClosed
    ensures Replay(inbound).buffer == Fragments(inbound[LastDone(inbound)..])
    decreases |inbound|
  {
    if inbound != [] {
      var init := inbound[..|inbound| - 1];
      ReplayLast(inbound);
      PendingSinceDone(init);
      if IsTranscriptDone(inbound[|inbound| - 1]) {
        assert inbound[|inbound|..] == [];
      } else {
        var k := LastDone(init);
        assert inbound[k..][..|inbound[k..]| - 1] == init[k..];
      }
    }
  }

  /** The blocks played are the decoded audio deltas, in arrival order. */
  lemma {:induction false} PlaybackFrames(inbound: seq<Message>)
    requires Replay(inbound).ending == ConnectionClosed
    ensures Replay(inbound).playback == Frames(inbound)
    decreases |inbound|
  {
    if inbound != [] {
      ReplayLast(inbound);
      PlaybackFrames(inbound[..|inbound| - 1]);
    }
  }

  /** A run that read every message read every prefix of them without raising, and said less. */
  lemma {:induction false} ReplayPrefix(inbound: seq<Message>, j: nat)
    requires j <= |inbound|
    requires Replay(inbound).ending == ConnectionClosed
    ensures Replay(inbound[..j]).ending == ConnectionClosed
    ensures Replay(inbound[..j]).utterances <= Replay(inbound).utterances
    ensures Replay(inbound[..j]).playback <= Replay(inbound).playback
    decreases |inbound|
  {
    if j == |inbound| {
      assert inbound[..j] == inbound;
    } else {
      var init := inbound[..|inbound| - 1];
      ReplayPrefix(init, j);
      assert init[..j] == inbound[..j];
    }
  }

  /**
   * The utterance shown for the transcript done at position i is the
   * concatenation of the fragments received since the previous done.
   */
  lemma UtteranceAtDone(inbound: seq<Message>, i: nat)
    requires Replay(inbound).ending == ConnectionClosed
    requires i < |inbound| && IsTranscriptDone(inbound[i])
    ensures DoneCount(inbound[..i]) < |Replay(inbound).utterances|
    ensures Replay(inbound).utterances[DoneCount(inbound[..i])] == Fragments(inbound[LastDone(inbound[..i])..i])
  {
    var before := inbound[..i];
    ReplayPrefix(inbound, i + 1);
    ReplayPrefix(inbound, i);
    assert inbound[..i + 1][..i] == before;
    UtteranceCount(before);
    PendingSinceDone(before);
    assert before[LastDone(before)..] == inbound[LastDone(before)..i];
  }

  /** Two transcript dones in a row: the second shows the empty text, never the first's again. */
  lemma ConsecutiveDones(inbound: seq<Message>, i: nat)
    requires Replay(inbound).ending == ConnectionClosed
    requires i + 1 < |inbound| && IsTranscriptDone(inbound[i]) && IsTranscriptDone(inbound[i + 1])
    ensures DoneCount(inbound[..i + 1]) < |Replay(inbound).utterances|
    ensures Replay(inbound).utterances[DoneCount(inbound[..i + 1])] == ""
  {
    UtteranceAtDone(inbound, i + 1);
    assert LastDone(inbound[..i + 1]) == i + 1;
  }

  /** Fragments "Hel", "lo " and "there" followed by a done make the single utterance "Hello there". */
  lemma HelloThere()
    ensures var inbound := [
        map["type" := Str(TranscriptDeltaType), "delta" := Str("Hel")],
        map["type" := Str(TranscriptDeltaType), "delta" := Str("lo ")],
        map["type" := Str(TranscriptDeltaType), "delta" := Str("there")],
        map["type" := Str(TranscriptDoneType)]];
      Replay(inbound) == Trace("", ["Hello there"], [], ConnectionClosed)
  {
    var m1 := map["type" := Str(TranscriptDeltaType), "delta" := Str("Hel")];
    var m2 := map["type" := Str(TranscriptDeltaType), "delta" := Str("lo ")];
    var m3 := map["type" := Str(TranscriptDeltaType), "delta" := Str("there")];
    var m4 := map["type" := Str(TranscriptDoneType)];
    var inbound := [m1, m2, m3, m4];
    assert inbound[..3][..2][..1] == [m1] && [m1][..0] == [];
    assert Replay([m1]) == Trace("Hel", [], [], ConnectionClosed);
    assert inbound[..3][..2] == [m1, m2];
    assert Replay([m1, m2]) == Trace("Hello ", [], [], ConnectionClosed);
    assert inbound[..3] == [m1, m2, m3];
    assert Replay([m1, m2, m3]) == Trace("Hello there", [], [], ConnectionClosed);
  }
}
