# Realtime audio chat client: verified model of its sequential core

This project models, in Dafny, the deterministic logic underneath an AI chat
application that talks to a realtime voice service over a websocket, to a
chat-completion endpoint and to an Elasticsearch index:

- **Frame codec** (`base64.dfy`, module `Base64`): the base64 encoding of
  section 4 of RFC 4648 that carries PCM16 audio on the wire
  (`base64.b64encode` when sending, `base64_to_pcm16` when receiving), with
  both round trips proved.
- **Realtime event protocol** (`audio_events.dfy`, module `AudioEvents`): the
  outbound `input_audio_buffer.append` event and the fixed `response.create`
  handshake.
- **Receive loop** (`audio_receive.dfy`, module `AudioReceive`): `receive_audio`
  as a method looping over the inbound messages. It keeps the transcript buffer
  `full_text`, shows each finished utterance (`st.write`) and plays decoded
  audio (`output_stream.write`). A pure `Dispatch`/`Replay` specification sits
  beside it, and lemmas tie that specification to reference definitions: one
  utterance per done, every fragment kept exactly once and in order, the
  buffer holding what came since the last done, playback equal to the decoded
  audio deltas.
- **Send loop** (`audio_send.dfy`, module `AudioSend`): `send_audio` over a
  sequence of microphone read results. A failed read sends nothing. Each good
  block becomes one append event, in order. The session sends the handshake
  first and exactly once.
- **Chat prompt** (`conversation.dfy`, `chat_prompt.dfy`): the message list
  `chat_with_bot` builds from the history, and the inverse that reads the
  history back from the messages.
- **RAG prompt** (`rag_prompt.dfy`, module `RagPrompt`): the `multi_match`
  search query, the extraction of `content` values from a search response
  (including the Python exceptions its lookups raise), the context join and
  its layout, the prompt template and the messages of `rag_with_elastic`.

JSON values (`json.dfy`) model what `json.loads` returns, including Python's
truthiness, and `errors.dfy` names the Python exceptions that escape.

A malformed audio frame is not dropped. `receive_audio` has no `try`, so a
frame that `b64decode` rejects raises and ends the receive loop, though
dropping the frame would keep the rest of the response playing. The same goes
for a transcript delta without a `delta` key or with a non-string one, and
for a message with a `delta` key but no `type`. `ReceiveAudio` therefore ends
with `Stopped(at, fault)` at the first such message, and `StoppedAtFault` and
`StopIsFinal` describe that.

## Model

| member | source | states |
|---|---|---|
| Base64.Encode | src/modes/audio_mode.py:48 | the encoding is 4 characters per started group of 3 bytes, each an alphabet character or `=` |
| Base64.Decode | src/modes/audio_mode.py:26-28 | a text that decodes is exactly as long as the encoding of its bytes; anything else fails with the binascii error |
| Base64.DecodeEncode | src/modes/audio_mode.py:26-28 | decoding the encoding of any bytes gives those bytes back |
| Base64.EncodeDecode | src/modes/audio_mode.py:26-28 | a decodable text with no stray bits after its padding is the encoding of what it decodes to |
| AudioEvents.AppendEvent | src/modes/audio_mode.py:48-53 | the audio event has exactly the fields `type` = `input_audio_buffer.append` and `audio`, and `audio` decodes to the block |
| AudioEvents.InitRequest | src/modes/audio_mode.py:102-109 | the handshake is `response.create` with exactly modalities `["audio","text"]`, the fixed instructions and voice `echo` |
| AudioEvents.HandshakeIsNotAudio | src/modes/audio_mode.py:102-110 | the handshake's type differs from every audio event's |
| AudioReceive.Dispatch | src/modes/audio_mode.py:74-93 | a transcript delta appends exactly its text; a done emits the whole buffer and clears it; any other type leaves the buffer alone; playback happens exactly for an audio delta with a non-empty base64 payload, and plays its decoding; which messages raise |
| AudioReceive.ReceiveAudio | src/modes/audio_mode.py:61-93 | the loop's utterances, playback and ending are those of the specification `Replay` of the messages |
| AudioReceive.StopIsFinal | src/modes/audio_mode.py:68-93 | after a message raises, no later message is processed |
| AudioReceive.StoppedAtFault | src/modes/audio_mode.py:68-93 | a stopped run stopped at the first message that raises, keeping the outputs made before it |
| AudioReceive.UtteranceCount | src/modes/audio_mode.py:81-84 | one utterance is shown per transcript done |
| AudioReceive.TranscriptConserved | src/modes/audio_mode.py:74-84 | the utterances followed by the buffer spell every fragment exactly once, in arrival order |
| AudioReceive.PendingSinceDone | src/modes/audio_mode.py:74-84 | the buffer is the concatenation of the fragments since the last done |
| AudioReceive.PlaybackFrames | src/modes/audio_mode.py:87-93 | the blocks played are the decoded audio deltas, in arrival order |
| AudioReceive.ReplayPrefix | src/modes/audio_mode.py:68-93 | the outputs only grow as messages arrive |
| AudioReceive.UtteranceAtDone | src/modes/audio_mode.py:74-84 | the utterance shown for a done is the concatenation of the fragments since the previous done |
| AudioReceive.ConsecutiveDones | src/modes/audio_mode.py:81-84 | the second of two consecutive dones shows the empty text, never the first one's again |
| AudioReceive.HelloThere | src/modes/audio_mode.py:74-84 | fragments "Hel", "lo ", "there" and a done show exactly "Hello there" |
| AudioSend.CapturedAppend | src/modes/audio_mode.py:41-56 | the blocks of successive reads keep read order |
| AudioSend.CapturedCount | src/modes/audio_mode.py:32-45 | every read is either one block or one failure |
| AudioSend.SendAudio | src/modes/audio_mode.py:31-58 | failed reads send nothing; the k-th event sent is the append event of the k-th good block and decodes back to it |
| AudioSend.StreamSession | src/modes/audio_mode.py:101-136 | the handshake goes first and is the only `response.create`; the audio events follow in read order; the receive side is `Replay` |
| Conversation.Turns | src/modes/natural_language_mode.py:10-12 | two messages per entry: message 2i is the user's question of entry i and message 2i+1 the bot's answer |
| Conversation.TurnsAlternate | src/modes/natural_language_mode.py:10-12 | roles alternate user, assistant, starting with the user |
| Conversation.EntriesOfTurns | src/modes/natural_language_mode.py:10-12 | the history can be read back from its messages unchanged and in order |
| Conversation.TurnsOfEntries | src/modes/natural_language_mode.py:10-12 | a message list that reads back as a history is exactly that history's messages |
| ChatPrompt.ChatMessages | src/modes/natural_language_mode.py:8-14 | the messages are the history's turns then the user input: 2·len(history)+1 messages, last one the input, only the input for an empty history |
| RagPrompt.SearchQuery | src/modes/rag_mode.py:21-26 | a `multi_match` of the query over exactly the fields `title` and `content` |
| RagPrompt.HitList | src/modes/rag_mode.py:30 | a response missing the outer or the inner `hits` gives no hits; a non-dict outer `hits` raises AttributeError; an inner `hits` list is returned as is, an empty dict or string counts as no hits, and any other inner value raises TypeError |
| RagPrompt.SourceContent | src/modes/rag_mode.py:31 | a hit's `_source.content`, `""` when absent; a hit without a dict `_source` raises |
| RagPrompt.Contents | src/modes/rag_mode.py:31 | one content per hit, in hit order, or the fault of the first hit that cannot be read |
| RagPrompt.QueryElasticsearch | src/modes/rag_mode.py:14-32 | no hits at either level give `[]`; it succeeds exactly when the hit list is read and every hit has a dict `_source`, and then gives one content per hit, in hit order; otherwise it raises the fault of the hit list or of the first unreadable hit |
| RagPrompt.JoinLength | src/modes/rag_mode.py:69 | a join is as long as its parts plus one separator between each two |
| RagPrompt.JoinLayout | src/modes/rag_mode.py:69 | each part sits at the offset of the parts and separators before it, followed by a separator unless last |
| RagPrompt.Context | src/modes/rag_mode.py:69 | no documents give the fixed fallback sentence; otherwise the texts joined by a blank line; it raises TypeError exactly when a document is not a string |
| RagPrompt.DocumentInContext | src/modes/rag_mode.py:69 | every document's text appears in the context, in order |
| RagPrompt.Prompt | src/modes/rag_mode.py:77 | the prompt is the fixed header, then the context, then the fixed question header, then the query |
| RagPrompt.RagWithElastic | src/modes/rag_mode.py:58-78 | the history's turns in order, then one user message with the prompt built from the context and the query; extraction and join failures propagate |

## Left out

- The websocket connection, its URL and headers, and `send`/`recv` (src/modes/audio_mode.py:19-23, 98, 110, 56, 70). Network I/O: the inbound side is the finite sequence of messages delivered before the connection closes, the outbound side the sequence of messages sent.
- `json.loads` failing, or returning something other than a dict. Inbound messages are modelled as dicts.
- JSON numbers are modelled as reals; NaN and infinities are not modelled.
- PyAudio: opening the streams, the block size (2048 frames of 16-bit mono at 24 kHz) and the teardown in `finally` (src/modes/audio_mode.py:113-148). Device plumbing: a read result is a byte block or a failure.
- asyncio: the two tasks, `gather`, `run_in_executor`, `sleep(0)` and the event loop (src/modes/audio_mode.py:43, 58, 132-136, 151-154). `StreamSession` runs the two directions one after the other and models only each direction's own order.
- `KeyboardInterrupt` and cancellation of the session.
- `print` diagnostics, including line 76, and Streamlit output other than the utterances `st.write` shows (src/modes/audio_mode.py:83). An utterance is recorded as the bare `full_text`, without the `Assistant: ` prefix that line 83 puts in front of it on screen.
- Base64.Decode: stricter than Python's non-strict `b64decode`. It rejects characters outside the alphabet, which Python discards, and it rejects padding anywhere but the final group. A non-ASCII text makes Python raise ValueError rather than binascii.Error; both are modelled as the binascii error.
- OpenAI calls (`ChatCompletion.create`, `Embedding.create`) and the reply they return. Remote calls with opaque results.
- The Elasticsearch client, `search` and `index` (src/modes/rag_mode.py:5-12, 29, 34-56). The search response is a parameter of `QueryElasticsearch`.
- src/modes/image_mode.py, src/app.py and src/config/openai_config.py. UI, argument parsing and environment loading.
