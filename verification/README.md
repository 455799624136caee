# N9NE voice agent core in Dafny

N9NE is a voice agent. A browser records speech, the FastAPI server
transcribes it with AssemblyAI, asks Google Gemini for an answer with the
session's chat history, speaks the answer with Murf, and falls back to a
canned message and a bundled audio file when any of those services is
missing or fails. This project models the server's decision logic and the
browser's playback queue as pure functions over immutable data, and proves
what they promise:

- `ChatStore` is the per-session chat-history store: append, read, delete,
  clear and the session listing with its 100-character preview.
- `ChatEndpoints` is the `/agent/chat/{session_id}` turn, the order of its
  checks and what it stores, plus the history, delete and listing endpoints
  and the first-match routing of the two DELETE routes.
- `Fallback` is the search for the first readable fallback audio file and
  the 503 rule of `/fallback/audio`.
- `Voices` is the case-insensitive voice map and the rule that turns the
  Murf outcome into either an audio URL or the fallback stream.
- `Gemini` is the translation of chat roles into Gemini roles, the
  candidate check and the truncation to `max_length`.
- `AudioChunks` is the audio chunk validator (WebM or Ogg signature, or
  more than 100 bytes) and the pass-through "converter".
- `MurfStreaming` is the streaming service's state machine: connect,
  send (mock or SDK payloads to the callbacks), clear the context, set the
  callbacks and close.
- `PlaybackQueue` is the browser's `AudioStreamClient`: a bounded FIFO of
  decoded buffers with a start threshold, pause and resume, the status it
  displays, and clamped rate and volume.
- `Base`, `Text` and `Base64` are shared vocabulary:
  - `Base` holds option and result types, bytes and prefix-taking;
  - `Text` holds ASCII case mapping, Python's whitespace set and UTF-8
    (RFC 3629);
  - `Base64` holds Base64 with padding (section 4 of RFC 4648) and a strict
    decoder, which is used to prove that the encoding loses nothing.

Every external service is a function parameter of the operation that
calls it. This covers transcription, the Gemini HTTP call, Murf synthesis,
the Murf streaming SDK and the file system. Fresh UUIDs and the audio clock
are plain parameters too. Each operation's contract therefore speaks about
every possible behaviour of those services at once.

## Model

| member | source | states |
|---|---|---|
| ChatStore.GetSessionHistory | app/services/chat_manager.py:49-51 | a known session's messages, and the empty list for an unknown one |
| ChatStore.AddMessage | app/services/chat_manager.py:39-46 | the session exists afterwards, with the message appended at its end; a missing session is created; every other session is unchanged |
| ChatStore.AddMessageAppends | app/services/chat_manager.py:39-46 | appending only extends: no session disappears, no stored message changes, and other sessions' histories are unchanged |
| ChatStore.ExtendsTransitive | app/services/chat_manager.py:39-46 | a sequence of appends is still only an extension of the first store |
| ChatStore.DeleteSession | app/services/chat_manager.py:53-59 | reports success exactly when the session existed; removes that key only; an unknown id leaves the store as it was |
| ChatStore.DeleteThenHistory | app/services/chat_manager.py:49-59 | after a delete the session reads as empty, and deleting it again reports failure and changes nothing |
| ChatStore.ClearAllSessions | app/services/chat_manager.py:61-66 | returns the number of sessions there were and leaves the store empty |
| ChatStore.LastMessagePreview | app/services/chat_manager.py:75 | "No messages" for an empty session; otherwise the last message's first 100 characters followed by "..." |
| ChatStore.PreviewOfShortMessage | app/services/chat_manager.py:75 | a last message of at most 100 characters appears whole, followed by "..." |
| ChatStore.ListSessions | app/services/chat_manager.py:68-77 | one entry per session and no other: each entry holds the session's id, message count and preview, every session is listed, and no id is listed twice |
| ChatEndpoints.ChatWithHistory | main.py:412-527 | the order of checks: a missing key stores the fallback message and answers with fallback audio; a failed upload read stores nothing; a failed transcription stores the fallback message; a null or blank transcript answers 400 and stores nothing; otherwise the turn proceeds |
| ChatEndpoints.Respond | main.py:444-527 | the user message is appended first; when Gemini's text value has no length (`null`, a number), `len` raises outside the inner `try`, so the reply is the fallback audio and nothing else is stored; otherwise the answer is appended too: the first candidate cut to 3000 characters, or the fallback message when Gemini fails. The reply is then the synthesized audio, or the fallback audio when Gemini or Murf fails |
| ChatEndpoints.AssistantText | main.py:465-481 | the stored answer is a prefix of the candidate of length min(length, 3000), or the fallback message when the candidate check fails |
| ChatEndpoints.TurnIsAppendOnly | main.py:412-527 | whatever the services do, a turn only appends to the history, creates no session but its own, and leaves other sessions unchanged |
| ChatEndpoints.TurnAppendsAtMostTwo | main.py:412-527 | a turn appends at most two messages, and exactly two (the user's first) when a non-blank transcript came back and Gemini's text value was not one without a length |
| ChatEndpoints.SynthesisDoesNotChangeHistory | main.py:480-521 | the stored history does not depend on what Murf does, because the answer is stored before synthesis |
| ChatEndpoints.BlankTranscriptCreatesNothing | main.py:441-442 | a null or blank transcript stores nothing and creates no session |
| ChatEndpoints.GetChatHistory | main.py:529-539 | the session's messages (empty for an unknown session), and a message count equal to their number for a known session only |
| ChatEndpoints.DeleteChatSession | main.py:541-549 | a known session is deleted and reported; an unknown one answers 404; either way only that key is removed |
| ChatEndpoints.DeleteAllChatSessions | main.py:551-557 | reports the number of sessions and empties the store |
| ChatEndpoints.DispatchTakesFirstMatch | main.py:541-557 | a request goes to the first registered route that matches it, whatever routes follow |
| ChatEndpoints.DeleteAllIsShadowed | main.py:541-557 | as registered, `DELETE /agent/chat/all` is, for every store, exactly the deletion of a session called `all`: 404 with nothing deleted when there is none, and never the clearing of a non-empty store (see Findings) |
| ChatEndpoints.DeleteAllCorrected | main.py:541-557 | with the literal route first, `/agent/chat/all` empties the store and any other segment deletes just its session |
| ChatEndpoints.ListAllSessions | main.py:559-570 | one summary per session, each faithful to its session, every session present, and a total equal to the number of sessions |
| Fallback.CandidateList | app/utils/fallback.py:7-21 | thirteen distinct candidate paths, `static/audio/fallback.mp3` first and `sample_voice.mp3` last |
| Fallback.FirstReadable | app/utils/fallback.py:30-38 | the position of the first candidate that exists and can be read; every earlier one is missing or raises |
| Fallback.SearchFallback | app/utils/fallback.py:25-40 | the contents of the first readable candidate, with its position; empty bytes when none is readable |
| Fallback.FirstReadableIsFirst | app/utils/fallback.py:30-38 | any position with no readable candidate before it and a readable one at it is the one the search picks |
| Fallback.FirstCandidateWins | app/utils/fallback.py:30-36 | when `static/audio/fallback.mp3` is readable, its contents are the fallback audio |
| Fallback.SkipUnreadable | app/utils/fallback.py:30-38 | missing or failing candidates in front change nothing but the position |
| Fallback.FallbackAudio | main.py:99-104 | answers 503 exactly when the fallback bytes are empty, and otherwise streams those bytes |
| Fallback.EmptyFileGives503 | main.py:87-104 | an empty first candidate stops the search, and the endpoint then answers 503 |
| Voices.VoiceIdFor | app/services/tts.py:12-24 | the mapped id of the lower-cased name, or `en-US-natalie` for an unknown name; always one of the map's ids |
| Voices.VoiceIdIgnoresCase | app/services/tts.py:24 | an upper-cased name selects the same voice as the name itself |
| Voices.ShoutedNarrator | app/services/tts.py:12-24 | `NARRATOR` selects `en-US-terrell` |
| Voices.UnknownIsDefault | app/services/tts.py:24 | a name outside the map selects the voice of `default` |
| Voices.GenerateSpeech | app/services/tts.py:20-49 | an audio URL exactly when Murf answers 200 with a body that is a JSON object, carrying its `audioFile` (possibly null); the fallback audio stream otherwise |
| Gemini.GeminiRole | app/services/llm.py:30 | `user` stays `user` and every other role becomes `model` |
| Gemini.ToContents | app/services/llm.py:28-31 | one content per message, in order, with the translated role and the message text as its single part |
| Gemini.ToContentsAppend | app/services/llm.py:28-31 | translating a longer history extends the translation of its prefix |
| Gemini.ContentsRoundTrip | app/services/llm.py:28-31 | for histories with only `user` and `assistant` roles, reading the contents back gives the history again |
| Gemini.FirstCandidateText | app/services/llm.py:41-50 | succeeds exactly when the body has a first candidate whose text is a string; a failed request, an empty or absent candidate list and a malformed candidate keep their extraction error, and a text value without a length is an error of its own |
| Gemini.CandidateValue | main.py:465-472 | the extraction shared with `llm.py`: succeeds exactly when the body has a first candidate with a text value, of any JSON type; a failed request and an empty candidate list are errors |
| Gemini.GenerateResponse | app/services/llm.py:17-52 | a missing or empty key fails first; otherwise it succeeds exactly when the candidate check does, with that text cut to at most `max_length` characters as a prefix |
| Gemini.NoKeyNoRequest | app/services/llm.py:24-25 | without a key the result does not depend on the service: no request is made |
| AudioChunks.IsValidAudioChunk | app/utils/audio_converter.py:83-99 | valid exactly when the chunk starts with the WebM or the Ogg signature or is longer than 100 bytes; the empty chunk is invalid |
| AudioChunks.ValidityByLength | app/utils/audio_converter.py:87-99 | chunks of 1 to 3 bytes are never valid, and chunks over 100 bytes always are |
| AudioChunks.SignatureSuffices | app/utils/audio_converter.py:91-96 | anything after a WebM or Ogg signature is valid |
| AudioChunks.ConvertAudioChunkToPcm | app/utils/audio_converter.py:61-81 | a non-empty chunk comes back unchanged; the empty chunk gives none |
| AudioChunks.ValidChunksPassThrough | app/utils/audio_converter.py:61-99 | every valid chunk passes through the converter unchanged |
| Base64.Encode | app/services/murf_websocket.py:62 | the encoding has four characters per started group of three bytes, and is empty only for empty input |
| Base64.EncodeAlphabet | app/services/murf_websocket.py:88 | every encoded character is an alphabet digit, or padding among the last two |
| Base64.DecodeEncode | app/services/murf_websocket.py:88 | decoding the encoding gives back the original bytes |
| Base64.EncodeDecode | app/services/murf_websocket.py:62 | the strict decoder accepts only encoder outputs: whatever it decodes encodes back to the same string, so unused bits before padding must be zero |
| Base64.EncodeInjective | app/services/murf_websocket.py:88 | different byte strings never share an encoding |
| Base64.RfcTestVectors | app/services/murf_websocket.py:62 | the encoder reproduces the test vectors of section 10 of RFC 4648, from "" to "foobar" |
| Text.Utf8 | app/services/murf_websocket.py:62 | one to four bytes per character, and empty only for the empty string |
| Text.Utf8OfAscii | app/services/murf_websocket.py:62 | ASCII text encodes byte for byte |
| Text.Utf8Append | app/services/murf_websocket.py:62 | the encoding of a concatenation is the concatenation of the encodings |
| Text.StripStart | main.py:441 | the leading characters Python's `str.isspace` accepts are removed: the result is a suffix, everything cut is whitespace, and it does not start with whitespace |
| Text.StripEnd | main.py:441 | the trailing whitespace is removed: the result is a prefix, everything cut is whitespace, and it does not end with whitespace |
| Text.Strip | main.py:441 | `str.strip()`: a contiguous piece of the input between a blank prefix and a blank suffix, neither starting nor ending with whitespace |
| Text.BlankIffStripsToEmpty | main.py:441 | `IsBlank` (all characters whitespace) holds exactly when `strip()` leaves the empty string, so it is the transcript test `not user_text.strip()` |
| Text.Lower | app/services/tts.py:24 | same length; each character is lower-cased and the others kept |
| Text.LowerOfUpper | app/services/tts.py:24 | lower-casing forgets any upper-casing done before |
| Text.LowerIdempotent | app/services/tts.py:24 | lower-casing twice is lower-casing once |
| MurfStreaming.NewService | app/services/murf_websocket.py:21-28 | a new service is not connected, has no callbacks, and keeps the given voice and context ids |
| MurfStreaming.Connect | app/services/murf_websocket.py:30-49 | connects, answering true, exactly when the SDK is present and the client can be built; nothing else changes |
| MurfStreaming.EmitAllPerSlot | app/services/murf_websocket.py:80-101 | each set callback receives every payload once, in stream order; an unset one receives nothing |
| MurfStreaming.EmitAllInterleaves | app/services/murf_websocket.py:94-100 | with both callbacks set, each payload reaches the websocket callback immediately before the audio callback |
| MurfStreaming.MockPayload | app/services/murf_websocket.py:62 | the mock payload decodes, under the strict decoder, to the UTF-8 bytes of `MOCK_AUDIO_DATA_` followed by the text's first 20 characters |
| MurfStreaming.MockPayloadIsEncoding | app/services/murf_websocket.py:62 | the mock payload is exactly the Base64 encoding `b64encode` gives those bytes |
| MurfStreaming.MockIgnoresTail | app/services/murf_websocket.py:62 | texts that agree on their first 20 characters give the same mock payload |
| MurfStreaming.SendTextChunk | app/services/murf_websocket.py:55-108 | always answers true; when not connected, one mock payload goes to the set callbacks; otherwise the deliveries are exactly the streamed chunks, Base64-encoded and in stream order, each handed to the websocket callback and then the audio callback, each callback only receiving what is sent to its own slot |
| MurfStreaming.SendInterleaves | app/services/murf_websocket.py:86-100 | connected with both callbacks set, chunk i goes, Base64-encoded, to the websocket callback's id at position 2i and to the audio callback's id at position 2i+1 |
| MurfStreaming.MockReachesEachSlotOnce | app/services/murf_websocket.py:57-76 | when not connected, each set callback receives exactly the one mock payload |
| MurfStreaming.ClearContext | app/services/murf_websocket.py:110-116 | the context id is replaced by a fresh one and nothing else changes |
| MurfStreaming.SetAudioCallback | app/services/murf_websocket.py:122-124 | replaces the audio callback only |
| MurfStreaming.SetWebsocketCallback | app/services/murf_websocket.py:126-128 | replaces the websocket callback only |
| MurfStreaming.Close | app/services/murf_websocket.py:130-141 | always ends disconnected and without a client; callbacks, voice and context are kept |
| MurfStreaming.SendAfterClose | app/services/murf_websocket.py:57-76 | after closing, sending falls back to the mock payload |
| PlaybackQueue.NewClient | static/script.js:6-24 | a new client has an empty queue, is neither playing nor paused, and has rate and volume 1 |
| PlaybackQueue.OnOpen | static/script.js:32-100 | connected; the client has an audio context afterwards exactly when it had one or the constructor succeeds; nothing else changes |
| PlaybackQueue.OnClose | static/script.js:77-82 | disconnected; nothing else changes |
| PlaybackQueue.PlayNextChunk | static/script.js:144-181 | no change while paused, while playing or with fewer than 4 chunks; otherwise the head is taken off and playing starts, with the play clock set to max(now, last) plus the head's duration |
| PlaybackQueue.OnEnded | static/script.js:184-204 | the source is dropped, playback stops and the next chunk is tried: unpaused with at least 4 queued, the head starts playing at max(now, last); paused or with fewer than 4, the client stays idle, without a source, with queue and clock unchanged; only the playback fields change |
| PlaybackQueue.OnError | static/script.js:207-216 | playback stops with the source kept and the next chunk is tried: unpaused with at least 4 queued, the head starts at max(now, last); otherwise only the playing flag changes |
| PlaybackQueue.ErrorIsEndedKeepingSource | static/script.js:184-216 | `onerror` leaves the state `onended` leaves, except for the source, and exactly that state whenever the next chunk starts |
| PlaybackQueue.QueueAudioChunk | static/script.js:103-142 | a full queue (8) drops the chunk unchanged; a chunk `atob` rejects changes nothing; an undecodable chunk with room runs the recovery, so it appends nothing and starts playback exactly when an idle unpaused client holds 4 to 7 chunks; a decoded one goes to the tail, and while playing nothing else changes; only the head can leave and only the playback fields change |
| PlaybackQueue.Recover | static/script.js:130-136 | after a failed decode, `playNextChunk` runs when the queue is not empty and nothing happens otherwise; playback is playing afterwards exactly when it was, or the client is unpaused with at least 4 chunks, and a start takes off the head and sets the clock to max(now, last) plus its duration; without a start nothing changes |
| PlaybackQueue.Enqueue | static/script.js:119-128 | a decoded buffer joins the tail; while playing nothing else changes, otherwise playback is tried; a valid client with room stays valid |
| PlaybackQueue.StatusOf | static/script.js:249-272 | paused wins over playing, which wins over the fill level: buffering below 4 queued chunks, ready from 4, idle when empty |
| PlaybackQueue.ReadyIffPlaybackStarts | static/script.js:144-160 | playback starts from a stopped client exactly when the displayed status is ready |
| PlaybackQueue.Pause | static/script.js:308-315 | only a playing client with an audio context pauses, and it stops playing; otherwise nothing changes |
| PlaybackQueue.Resume | static/script.js:318-326 | only a paused client with an audio context resumes; it is then playing exactly when at least 4 chunks wait, with the head taken off and the clock at max(now, last) plus its duration; with fewer it is only unpaused, queue and clock unchanged; otherwise nothing changes |
| PlaybackQueue.SetPlaybackRate | static/script.js:329-334 | the rate is clamped into [0.5, 4.0]: kept inside, pinned to the nearer bound outside |
| PlaybackQueue.SetVolume | static/script.js:337-340 | the volume is clamped into [0, 1]: kept inside, pinned to the nearer bound outside |
| PlaybackQueue.Cleanup | static/script.js:343-367 | queue empty, not playing, not paused, no context, clock at 0, status idle; the connection flag, rate, volume and the message records are kept |
| PlaybackQueue.OnMessage | static/script.js:38-75 | `audio_chunk` is recorded and, with an audio context, handed to `queueAudioChunk`, changing nothing but the record and the playback fields; without a context it is only recorded; `streaming_audio` is only recorded; `stream_complete` only empties the `audio_chunk` record; anything else changes nothing |
| PlaybackQueue.Step | static/script.js:32-367 | every event keeps the client valid, and outside cleanup it changes the queue only by appending the arrival and taking off the head |
| PlaybackQueue.StepIsFifo | static/script.js:103-181 | outside cleanup, an event's started buffer followed by the new queue equals the old queue followed by the arrival |
| PlaybackQueue.RunIsFifo | static/script.js:103-215 | over any run without cleanup, the buffers played followed by those waiting equal those waiting before followed by those accepted, in arrival order |
| PlaybackQueue.RunStaysValid | static/script.js:103-367 | over any run of events the queue stays within 8 chunks, the client is never both playing and paused, and rate and volume stay in range |
| PlaybackQueue.QueueNeverExceedsMax | static/script.js:15-16 | from a new client, no run of events takes the queue past 8 chunks |

## Left out

- Persistence: the JSON file behind the store is not modelled. `save_history`, `load_history` and their `main.py` twins only mirror the in-memory dict, and their errors are swallowed. Likewise, the dict order of the session listing is not modelled; `ChatStore.ListSessions` states which entries appear, not where.
- ChatStore.ListSessions: takes sessions in an arbitrary order rather than Python's insertion order, because a Dafny map has no order.
- ChatEndpoints.ListAllSessions: same as `ChatStore.ListSessions`; the listing states which sessions appear, not the insertion order of `chat_history_store`.
- ChatEndpoints.ListAllSessions: the constant `"created": "N/A"` field of each summary (main.py:568) is not modelled, because it carries no information.
- `convert_webm_to_pcm` (app/utils/audio_converter.py:20-59) is not modelled, because it wraps pydub and FFmpeg decoding. Nothing in the modelled core calls it: the chunk converter `convert_audio_chunk_to_pcm` passes a non-empty chunk through and gives `None` for an empty one, and that converter is modelled.
- Text.Lower: lower-cases ASCII letters only, whereas Python's `str.lower` also maps other scripts. Every name in the voice map is ASCII.
- Gemini.GenerateResponse: takes `max_length` as a natural number. A negative `max_length` slices from the end in Python, and no caller passes one.
- The failure detail inside the Gemini and Murf calls is not modelled: HTTP status, JSON parsing, KeyError, timeouts and the audio download collapse into one failed outcome each (`Gemini.Reply.RequestFailed`, `MalformedCandidate`, `ChatEndpoints.TtsOutcome.SpeechFailed`). These are the failures raised inside the inner `try` blocks, and the handler treats each group the same way. A candidate text value without a length escapes the inner `try` and is modelled separately (`Gemini.TextValue.NoLength`).
- Gemini.CandidateValue: a text value that is a JSON list or object is not modelled. It has a length, so `len` succeeds and the value would be stored as the assistant message.
- MurfStreaming.SendTextChunk: the exception path (app/services/murf_websocket.py:105-108) is not modelled. It calls `send_text_chunk` again with the service still connected, so it re-enters the SDK path and recurses for as long as the SDK keeps raising. Chunks delivered before the exception are delivered again. The model takes the SDK stream to complete.
- The `clear_context` failure branch is not modelled, because generating a UUID does not fail. The `websocket` attribute is not modelled either, because it is only ever set to `None`.
- The UUIDs, the environment variables and the `MURF_SDK_AVAILABLE` import check are parameters, not computations.
- In the playback client, Web Audio is not modelled: buffer sources, gain nodes, and context suspend and resume. A source's `onended` and `onerror` are modelled as `OnEnded` and `OnError`: they differ only in that `onerror` keeps `currentSource` (the `hasSource` flag). Also not modelled:
  - the DOM status text and icons;
  - `bufferedChunks`, the percentage display and the reconnect timer;
  - `sendTextForTTS`.
- The `setTimeout` that re-tries `playNextChunk` is an ordinary `TimerFired` event, with timing left out.
- Events are handled one at a time. The interleavings of `async` handlers are not modelled, and neither is `onended` of a stale source after pause and resume.
- PlaybackQueue.SetPlaybackRate: treats rates as real numbers, so JavaScript's NaN, which `Math.min`/`Math.max` propagate, has no counterpart.
- PlaybackQueue.SetVolume: same as the rate; NaN has no counterpart.
- The `/ws` voice-agent orchestrator and the streaming STT client are not modelled, because neither exists in the code of this repository.
- The single-shot endpoints (`/generate`, `/upload`, `/transcribe/file`, `/voice-reply`, `/llm/query`, `/murf-tts`, `/murf-tts-json`), the routers and the demo and test scripts are not modelled. These endpoints are separate variants with their own error handling, not repeats of the modelled turn. For example, `/llm/query` sends no history (main.py:326), and its blank-speech 400 (main.py:319-320) is caught by its own `except Exception` (main.py:374-376), so the client gets fallback audio instead.

## Findings

| source | as written | input that shows it | evidently intended | confidence | as-written member | corrected member |
|---|---|---|---|---|---|---|
| main.py:541-557 | `DELETE /agent/chat/{session_id}` is registered before `DELETE /agent/chat/all`, and the router takes the first match | `DELETE /agent/chat/all` with sessions present, none called `all`: 404 "Session not found", nothing deleted | the literal `all` route clears every session and reports the count | high, not executed | ChatEndpoints.DeleteAllIsShadowed | ChatEndpoints.DeleteAllCorrected |
