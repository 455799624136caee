/** The chat-history endpoints of `main.py`: the `/agent/chat/{session_id}`
    conversation turn and the history, delete and listing endpoints beside
    it. Transcription, the Gemini call and Murf synthesis are function
    parameters; persistence to `chat_history.json` is left out (its failures
    are swallowed and never change the in-memory store). */
module ChatEndpoints {
  import opened Base
  import opened Text
  import opened ChatStore
  import Fallback
  import Gemini
  import Voices

  /** Whether each of the three keys read from the environment is set and
      non-empty. */
  datatype ApiKeys = ApiKeys(assemblyAi: bool, gemini: bool, murf: bool)
  {
    predicate All() { assemblyAi && gemini && murf }
  }

  /** `transcriber.transcribe(...)`: an exception, or a transcript whose
      `text` may be null. */
  datatype Transcription = TranscriptionRaised | Transcribed(text: Option<string>)

  /** The Murf request the turn sends: the reply text and the voice id. */
  datatype TtsRequest = TtsRequest(text: string, voiceId: string)

  /** The whole Murf leg (generate, read `audioFile`, download): the audio
      bytes, or a failure at any of its steps. */
  datatype TtsOutcome = SpeechAudio(audio: Bytes) | SpeechFailed

  /** The external services a turn talks to. */
  datatype Services = Services(
    transcribe: Bytes -> Transcription,
    gemini: seq<Gemini.Content> -> Gemini.Reply,
    synthesize: TtsRequest -> TtsOutcome)

  /** How a turn answers: synthesized speech, the fallback audio, or the
      400 `No speech detected in audio`. */
  datatype ChatReply = SpokenReply(audio: Bytes) | FallbackReply(audio: Bytes) | NoSpeech400

  datatype Turn = Turn(store: Store, reply: ChatReply)

  /** Cap on the stored and spoken LLM reply. */
  const MaxReplyLength: nat := 3000

  const UserRole: string := "user"
  const AssistantRole: string := "assistant"

  /** `after` is `before` with `added` appended to session `id` (created if it
      was missing), and every other session as it was. */
  ghost predicate Appended(before: Store, after: Store, id: SessionId, added: seq<Message>)
  {
    && after.Keys == before.Keys + {id}
    && after[id] == GetSessionHistory(before, id) + added
    && forall other :: other in before && other != id ==> after[other] == before[other]
  }

  /** The text a turn stores and speaks as the assistant's answer, given the
      Gemini candidate check: the candidate cut to 3000 characters, or the
      fallback message. */
  function AssistantText(candidate: Result<string, Gemini.LlmError>): (a: string)
    ensures candidate.Err? ==> a == Fallback.FallbackMessage
    ensures candidate.Ok? ==> a <= candidate.value && |a| == Min(|candidate.value|, MaxReplyLength)
  {
    match candidate
    case Ok(text) => Take(text, MaxReplyLength)
    case Err(_) => Fallback.FallbackMessage
  }

  lemma AppendOne(store: Store, id: SessionId, m: Message)
    ensures Appended(store, AddMessage(store, id, m.role, m.content), id, [m])
  {
  }

  lemma AppendTwo(store: Store, id: SessionId, m1: Message, m2: Message)
    ensures Appended(store, AddMessage(AddMessage(store, id, m1.role, m1.content), id, m2.role, m2.content),
                     id, [m1, m2])
  {
    var s1 := AddMessage(store, id, m1.role, m1.content);
    var s2 := AddMessage(s1, id, m2.role, m2.content);
    assert s2[id] == GetSessionHistory(store, id) + [m1] + [m2];
    assert GetSessionHistory(store, id) + [m1] + [m2] == GetSessionHistory(store, id) + [m1, m2];
  }

  /** What Gemini answers when the history of `id`, followed by the user's
      `said`, is sent. */
  function AnswerTo(store: Store, id: SessionId, said: string, services: Services): Gemini.Reply
  {
    services.gemini(Gemini.ToContents(GetSessionHistory(store, id) + [Message(UserRole, said)]))
  }

  /** The answer's text value has no length: it gets past the extraction in
      the inner `try`, and `len(llm_text)` then raises outside it, so the
      outer handler answers and no assistant message is stored. */
  predicate Lengthless(reply: Gemini.Reply)
  {
    Gemini.CandidateValue(reply) == Ok(Gemini.NoLength)
  }

  /** The part of `chat_with_history` after a non-blank transcript `said`:
      store the user message, send the whole history to Gemini, store its
      answer (or the fallback message), then synthesize the stored answer.
      An answer whose text has no length stops the turn after the user
      message. */
  function Respond(store: Store, id: SessionId, said: string, voice: string,
                   services: Services, fs: Fallback.FileSystem): (t: Turn)
    ensures Lengthless(AnswerTo(store, id, said, services)) ==>
      && Appended(store, t.store, id, [Message(UserRole, said)])
      && t.reply == FallbackReply(Fallback.FallbackBytes(fs))
    ensures !Lengthless(AnswerTo(store, id, said, services)) ==>
      var candidate := Gemini.FirstCandidateText(AnswerTo(store, id, said, services));
      var answer := AssistantText(candidate);
      && Appended(store, t.store, id, [Message(UserRole, said), Message(AssistantRole, answer)])
      && (candidate.Err? ==> t.reply == FallbackReply(Fallback.FallbackBytes(fs)))
      && (candidate.Ok? ==>
            match services.synthesize(TtsRequest(answer, Voices.VoiceIdFor(voice)))
            case SpeechAudio(audio) => t.reply == SpokenReply(audio)
            case SpeechFailed => t.reply == FallbackReply(Fallback.FallbackBytes(fs)))
  {
    var user := Message(UserRole, said);
    var withUser := AddMessage(store, id, UserRole, said);
    var reply := services.gemini(Gemini.ToContents(withUser[id]));
    if Lengthless(reply) then
      AppendOne(store, id, user);
      Turn(withUser, FallbackReply(Fallback.FallbackBytes(fs)))
    else
      var candidate := Gemini.FirstCandidateText(reply);
      var answer := AssistantText(candidate);
      var stored := AddMessage(withUser, id, AssistantRole, answer);
      AppendTwo(store, id, user, Message(AssistantRole, answer));
      if candidate.Err? then Turn(stored, FallbackReply(Fallback.FallbackBytes(fs)))
      else
        match services.synthesize(TtsRequest(answer, Voices.VoiceIdFor(voice)))
        case SpeechAudio(audio) => Turn(stored, SpokenReply(audio))
        case SpeechFailed => Turn(stored, FallbackReply(Fallback.FallbackBytes(fs)))
  }

  /** `chat_with_history`. `upload` is `None` when reading the uploaded file
      raises. The handler checks, in order: a missing key, a failed read, a
      failed transcription, a null or blank transcript; only then does it
      store anything of the user's. */
  function ChatWithHistory(store: Store, id: SessionId, upload: Option<Bytes>, voice: string,
                           keys: ApiKeys, services: Services, fs: Fallback.FileSystem): (t: Turn)
    ensures !keys.All() ==>
      Appended(store, t.store, id, [Message(AssistantRole, Fallback.FallbackMessage)])
      && t.reply == FallbackReply(Fallback.FallbackBytes(fs))
    ensures keys.All() && upload.None? ==>
      t.store == store && t.reply == FallbackReply(Fallback.FallbackBytes(fs))
    ensures keys.All() && upload.Some? && services.transcribe(upload.value).TranscriptionRaised? ==>
      Appended(store, t.store, id, [Message(AssistantRole, Fallback.FallbackMessage)])
      && t.reply == FallbackReply(Fallback.FallbackBytes(fs))
    ensures keys.All() && upload.Some? && services.transcribe(upload.value).Transcribed? ==>
      var said := services.transcribe(upload.value).text;
      if said.None? || IsBlank(said.value) then t == Turn(store, NoSpeech400)
      else t == Respond(store, id, said.value, voice, services, fs)
  {
    var fallback := FallbackReply(Fallback.FallbackBytes(fs));
    var apology := Message(AssistantRole, Fallback.FallbackMessage);
    if !keys.All() then
      AppendOne(store, id, apology);
      Turn(AddMessage(store, id, apology.role, apology.content), fallback)
    else if upload.None? then
      Turn(store, fallback)
    else
      match services.transcribe(upload.value)
      case TranscriptionRaised =>
        AppendOne(store, id, apology);
        Turn(AddMessage(store, id, apology.role, apology.content), fallback)
      case Transcribed(said) =>
        if said.None? || IsBlank(said.value) then Turn(store, NoSpeech400)
        else Respond(store, id, said.value, voice, services, fs)
  }

  /** Whatever happens, a turn only appends: no session disappears and no
      stored message changes. It touches no session but its own. */
  lemma TurnIsAppendOnly(store: Store, id: SessionId, upload: Option<Bytes>, voice: string,
                         keys: ApiKeys, services: Services, fs: Fallback.FileSystem)
    ensures var t := ChatWithHistory(store, id, upload, voice, keys, services, fs);
      && Extends(store, t.store)
      && t.store.Keys <= store.Keys + {id}
      && forall other :: other != id ==> GetSessionHistory(t.store, other) == GetSessionHistory(store, other)
  {
    var t := ChatWithHistory(store, id, upload, voice, keys, services, fs);
    var apology := Message(AssistantRole, Fallback.FallbackMessage);
    if !keys.All() {
      AppendedOnlyGrows(store, t.store, id, [apology]);
    } else if upload.None? {
      ExtendsReflexive(store);
    } else {
      match services.transcribe(upload.value)
      case TranscriptionRaised =>
        AppendedOnlyGrows(store, t.store, id, [apology]);
      case Transcribed(said) =>
        if said.Some? && !IsBlank(said.value) {
          var reply := AnswerTo(store, id, said.value, services);
          if Lengthless(reply) {
            AppendedOnlyGrows(store, t.store, id, [Message(UserRole, said.value)]);
          } else {
            var answer := AssistantText(Gemini.FirstCandidateText(reply));
            AppendedOnlyGrows(store, t.store, id, [Message(UserRole, said.value), Message(AssistantRole, answer)]);
          }
        } else {
          ExtendsReflexive(store);
        }
    }
  }

  lemma AppendedOnlyGrows(before: Store, after: Store, id: SessionId, added: seq<Message>)
    requires Appended(before, after, id, added)
    ensures Extends(before, after)
    ensures after.Keys <= before.Keys + {id}
    ensures forall other :: other != id ==> GetSessionHistory(after, other) == GetSessionHistory(before, other)
  {
    forall k | k in before ensures k in after && before[k] <= after[k] {
      if k == id {
        assert GetSessionHistory(before, id) == before[id];
      }
    }
  }

  /** A turn appends at most two messages; it appends two exactly when a
      non-blank transcript came back and Gemini's answer was not a text
      without a length, and then the first is the user's. */
  lemma TurnAppendsAtMostTwo(store: Store, id: SessionId, upload: Option<Bytes>, voice: string,
                             keys: ApiKeys, services: Services, fs: Fallback.FileSystem)
    ensures var t := ChatWithHistory(store, id, upload, voice, keys, services, fs);
      var grown := |GetSessionHistory(t.store, id)| - |GetSessionHistory(store, id)|;
      && 0 <= grown <= 2
      && (grown == 2 <==>
            keys.All() && upload.Some? && services.transcribe(upload.value).Transcribed?
            && services.transcribe(upload.value).text.Some?
            && !IsBlank(services.transcribe(upload.value).text.value)
            && !Lengthless(AnswerTo(store, id, services.transcribe(upload.value).text.value, services)))
      && (grown == 2 ==> GetSessionHistory(t.store, id)[|GetSessionHistory(store, id)|].role == UserRole)
  {
    var t := ChatWithHistory(store, id, upload, voice, keys, services, fs);
    var apology := Message(AssistantRole, Fallback.FallbackMessage);
    if !keys.All() {
      AppendedGrowth(store, t.store, id, [apology]);
    } else if upload.Some? {
      match services.transcribe(upload.value)
      case TranscriptionRaised =>
        AppendedGrowth(store, t.store, id, [apology]);
      case Transcribed(said) =>
        if said.Some? && !IsBlank(said.value) {
          var reply := AnswerTo(store, id, said.value, services);
          if Lengthless(reply) {
            AppendedGrowth(store, t.store, id, [Message(UserRole, said.value)]);
          } else {
            var answer := AssistantText(Gemini.FirstCandidateText(reply));
            AppendedGrowth(store, t.store, id, [Message(UserRole, said.value), Message(AssistantRole, answer)]);
          }
        }
    }
  }

  lemma AppendedGrowth(before: Store, after: Store, id: SessionId, added: seq<Message>)
    requires Appended(before, after, id, added)
    ensures |GetSessionHistory(after, id)| == |GetSessionHistory(before, id)| + |added|
    ensures forall k :: 0 <= k < |added| ==> GetSessionHistory(after, id)[|GetSessionHistory(before, id)| + k] == added[k]
  {
  }

  /** Synthesis comes after the answer is stored: two runs that differ only in
      the synthesizer leave the same history. */
  lemma SynthesisDoesNotChangeHistory(store: Store, id: SessionId, upload: Option<Bytes>, voice: string,
                                      keys: ApiKeys, services: Services, other: TtsRequest -> TtsOutcome,
                                      fs: Fallback.FileSystem)
    ensures ChatWithHistory(store, id, upload, voice, keys, services, fs).store
         == ChatWithHistory(store, id, upload, voice, keys, services.(synthesize := other), fs).store
  {
    var swapped := services.(synthesize := other);
    assert swapped.transcribe == services.transcribe;
    if keys.All() && upload.Some? && services.transcribe(upload.value).Transcribed? {
      var said := services.transcribe(upload.value).text;
      if said.Some? && !IsBlank(said.value) {
        RespondStoreIgnoresSynthesis(store, id, said.value, voice, services, other, fs);
      }
    }
  }

  lemma RespondStoreIgnoresSynthesis(store: Store, id: SessionId, said: string, voice: string,
                                     services: Services, other: TtsRequest -> TtsOutcome,
                                     fs: Fallback.FileSystem)
    ensures Respond(store, id, said, voice, services, fs).store
         == Respond(store, id, said, voice, services.(synthesize := other), fs).store
  {
  }

  /** A blank transcript creates no session and stores nothing. */
  lemma BlankTranscriptCreatesNothing(store: Store, id: SessionId, audio: Bytes, voice: string,
                                      keys: ApiKeys, services: Services, fs: Fallback.FileSystem)
    requires keys.All()
    requires services.transcribe(audio).Transcribed?
    requires services.transcribe(audio).text.Some? ==> IsBlank(services.transcribe(audio).text.value)
    ensures ChatWithHistory(store, id, Some(audio), voice, keys, services, fs).store == store
    ensures id !in store ==> id !in ChatWithHistory(store, id, Some(audio), voice, keys, services, fs).store
  {
  }

  /** The body of `GET /agent/chat/{session_id}/history`; `messageCount` is
      only present for a known session. */
  datatype HistoryView = HistoryView(sessionId: SessionId, messages: seq<Message>, messageCount: Option<nat>)

  /** `get_chat_history`. */
  function GetChatHistory(store: Store, id: SessionId): (v: HistoryView)
    ensures v.sessionId == id
    ensures v.messages == GetSessionHistory(store, id)
    ensures v.messageCount.Some? <==> id in store
    ensures v.messageCount.Some? ==> v.messageCount.value == |v.messages|
  {
    if id !in store then HistoryView(id, [], None)
    else HistoryView(id, store[id], Some(|store[id]|))
  }

  /** What a DELETE under `/agent/chat/` answers. */
  datatype DeleteReply = SessionDeleted(id: SessionId) | NotFound404 | AllDeleted(count: nat)

  datatype Deleted = Deleted(store: Store, reply: DeleteReply)

  /** `delete_chat_session`: deletes a known session, answers 404 for an
      unknown one and leaves the store alone. */
  function DeleteChatSession(store: Store, id: SessionId): (d: Deleted)
    ensures d.reply == SessionDeleted(id) <==> id in store
    ensures d.reply == NotFound404 <==> id !in store
    ensures d.store.Keys == store.Keys - {id}
    ensures forall other :: other in d.store ==> d.store[other] == store[other]
  {
    var r := DeleteSession(store, id);
    Deleted(r.store, if r.deleted then SessionDeleted(id) else NotFound404)
  }

  /** `delete_all_chat_sessions`: reports the number of sessions and empties
      the store. */
  function DeleteAllChatSessions(store: Store): (d: Deleted)
    ensures d.store == map[]
    ensures d.reply == AllDeleted(|store|)
  {
    var r := ClearAllSessions(store);
    Deleted(r.store, AllDeleted(r.removed))
  }

  /** A route under `DELETE /agent/chat/`: the path parameter `{session_id}`
      (one non-empty segment without `/`), or a literal segment. */
  datatype DeleteRoute = BySessionId | Literal(segment: string)

  predicate Matches(route: DeleteRoute, segment: string)
  {
    match route
    case BySessionId => |segment| > 0 && '/' !in segment
    case Literal(s) => segment == s
  }

  function Handle(route: DeleteRoute, segment: string, store: Store): Deleted
  {
    match route
    case BySessionId => DeleteChatSession(store, segment)
    case Literal(_) => DeleteAllChatSessions(store)
  }

  /** The router tries routes in registration order and the first match
      handles the request; with no match the answer is 404. */
  function Dispatch(routes: seq<DeleteRoute>, segment: string, store: Store): (d: Deleted)
    ensures (forall i :: 0 <= i < |routes| ==> !Matches(routes[i], segment)) ==> d == Deleted(store, NotFound404)
    ensures |routes| > 0 && Matches(routes[0], segment) ==> d == Handle(routes[0], segment, store)
  {
    if |routes| == 0 then Deleted(store, NotFound404)
    else if Matches(routes[0], segment) then Handle(routes[0], segment, store)
    else Dispatch(routes[1..], segment, store)
  }

  /** The request goes to the first route that matches, whatever follows
      it. */
  lemma {:induction false} DispatchTakesFirstMatch(routes: seq<DeleteRoute>, segment: string, store: Store, k: nat)
    requires k < |routes| && Matches(routes[k], segment)
    requires forall j :: 0 <= j < k ==> !Matches(routes[j], segment)
    ensures Dispatch(routes, segment, store) == Handle(routes[k], segment, store)
    decreases k
  {
    if k > 0 {
      DispatchTakesFirstMatch(routes[1..], segment, store, k - 1);
    }
  }

  /** The DELETE routes in the order `main.py` registers them. */
  const RoutesAsWritten: seq<DeleteRoute> := [BySessionId, Literal("all")]

  /** The order that lets `/agent/chat/all` reach its handler. */
  const RoutesCorrected: seq<DeleteRoute> := [Literal("all"), BySessionId]

  /** As registered, `DELETE /agent/chat/all` is taken by the session route
      for every store: it deletes only a session called `all` and answers 404
      when there is none, so `delete_all_chat_sessions` is unreachable and a
      non-empty store is never emptied this way. */
  lemma DeleteAllIsShadowed(store: Store)
    ensures Dispatch(RoutesAsWritten, "all", store) == DeleteChatSession(store, "all")
    ensures "all" !in store ==> Dispatch(RoutesAsWritten, "all", store) == Deleted(store, NotFound404)
    ensures |store| > 0 ==> Dispatch(RoutesAsWritten, "all", store) != DeleteAllChatSessions(store)
  {
  }

  /** With the literal route first, `DELETE /agent/chat/all` empties the store
      and every other segment still deletes just its session. */
  lemma DeleteAllCorrected(store: Store, segment: string)
    requires |segment| > 0 && '/' !in segment
    ensures Dispatch(RoutesCorrected, "all", store) == Deleted(map[], AllDeleted(|store|))
    ensures segment != "all" ==> Dispatch(RoutesCorrected, segment, store) == DeleteChatSession(store, segment)
  {
  }

  /** The body of `GET /agent/chat/sessions/list`. */
  datatype SessionListing = SessionListing(sessions: seq<SessionSummary>, totalSessions: nat)

  /** `list_all_sessions`: one summary per session and their count. */
  method ListAllSessions(store: Store) returns (listing: SessionListing)
    ensures listing.totalSessions == |listing.sessions| == |store|
    ensures forall i :: 0 <= i < |listing.sessions| ==> Summarizes(store, listing.sessions[i])
    ensures forall id :: id in store ==> id in Ids(listing.sessions)
  {
    var sessions := ListSessions(store);
    listing := SessionListing(sessions, |sessions|);
  }
}
