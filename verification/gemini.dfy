/** `GeminiService.generate_response` of `app/services/llm.py`: translate the
    chat history into Gemini `contents`, send it, check the candidates, and
    cut the reply to `max_length`. The HTTP call is a function parameter. */
module Gemini {
  import opened Base
  import opened ChatStore

  datatype Part = Part(text: string)

  /** One entry of the request's `contents` list. */
  datatype Content = Content(role: string, parts: seq<Part>)

  /** The JSON value found at a candidate's `content.parts[0].text`: a
      string, or a value Python's `len` rejects (`null`, a number, a
      boolean). */
  datatype TextValue = Str(s: string) | NoLength

  /** What the `generateContent` call yielded: a transport, HTTP-status or
      JSON-parsing failure, or a parsed body. A body without a `candidates`
      field reads as an empty candidate list; a candidate whose
      `content.parts[0].text` path is missing is `None`. */
  datatype Reply = RequestFailed | Body(candidates: seq<Option<TextValue>>)

  datatype LlmError = MissingApiKey | TransportError | NoCandidates | MalformedCandidate | TextWithoutLength

  /** Gemini knows two roles: `user` stays `user`, every other role is the
      model speaking. */
  function GeminiRole(role: string): (r: string)
    ensures r == "user" || r == "model"
    ensures r == "user" <==> role == "user"
  {
    if role == "user" then "user" else "model"
  }

  function ToContent(m: Message): Content
  {
    Content(GeminiRole(m.role), [Part(m.content)])
  }

  /** The `for msg in messages` loop: one content per message, same order,
      translated role, the message text as the single part. */
  function ToContents(messages: seq<Message>): (cs: seq<Content>)
    ensures |cs| == |messages|
    ensures forall i :: 0 <= i < |messages| ==>
      && cs[i].role == GeminiRole(messages[i].role)
      && cs[i].parts == [Part(messages[i].content)]
  {
    if |messages| == 0 then [] else [ToContent(messages[0])] + ToContents(messages[1..])
  }

  /** The translation of a longer history extends the translation of its
      prefix, so appending a message appends exactly one content. */
  lemma ToContentsAppend(a: seq<Message>, b: seq<Message>)
    ensures ToContents(a + b) == ToContents(a) + ToContents(b)
  {
    var l, r := ToContents(a + b), ToContents(a) + ToContents(b);
    forall i | 0 <= i < |a + b| ensures l[i] == r[i] {
      if i < |a| {
        assert (a + b)[i] == a[i];
      } else {
        assert (a + b)[i] == b[i - |a|];
      }
    }
  }

  /** The chat roles the server writes: `user` and `assistant`. */
  predicate IsChatRole(role: string) { role == "user" || role == "assistant" }

  /** Reads a Gemini content back as a chat message. */
  function FromContent(c: Content): Message
  {
    Message(if c.role == "user" then "user" else "assistant",
            if |c.parts| == 1 then c.parts[0].text else "")
  }

  /** On histories that only use the server's two roles the translation loses
      nothing: reading the contents back gives the history again. */
  lemma {:induction false} ContentsRoundTrip(messages: seq<Message>)
    requires forall i :: 0 <= i < |messages| ==> IsChatRole(messages[i].role)
    ensures forall i :: 0 <= i < |messages| ==> FromContent(ToContents(messages)[i]) == messages[i]
  {
    var cs := ToContents(messages);
    forall i | 0 <= i < |messages| ensures FromContent(cs[i]) == messages[i] {
      assert cs[i] == ToContent(messages[i]);
    }
  }

  /** The extraction both callers share: `candidates` must be present and
      non-empty, and the first one must have a `content.parts[0].text`
      value, of whatever JSON type. */
  function CandidateValue(reply: Reply): (r: Result<TextValue, LlmError>)
    ensures r.Ok? <==> reply.Body? && |reply.candidates| > 0 && reply.candidates[0].Some?
    ensures r.Ok? ==> r.value == reply.candidates[0].value
    ensures reply.Body? && |reply.candidates| == 0 ==> r == Err(NoCandidates)
    ensures reply.RequestFailed? ==> r == Err(TransportError)
  {
    match reply
    case RequestFailed => Err(TransportError)
    case Body(candidates) =>
      if |candidates| == 0 then Err(NoCandidates)
      else if candidates[0].None? then Err(MalformedCandidate)
      else Ok(candidates[0].value)
  }

  /** The candidate check of `generate_response`: the extraction, then
      `len(text)`, which raises for a value without a length. Only a string
      gets through. */
  function FirstCandidateText(reply: Reply): (r: Result<string, LlmError>)
    ensures r.Ok? <==> reply.Body? && |reply.candidates| > 0 && reply.candidates[0].Some?
                       && reply.candidates[0].value.Str?
    ensures r.Ok? ==> r.value == reply.candidates[0].value.s
    ensures CandidateValue(reply).Err? ==> r == Err(CandidateValue(reply).error)
    ensures CandidateValue(reply) == Ok(NoLength) ==> r == Err(TextWithoutLength)
  {
    match CandidateValue(reply)
    case Err(e) => Err(e)
    case Ok(Str(text)) => Ok(text)
    case Ok(NoLength) => Err(TextWithoutLength)
  }

  /** `not self.api_key`: an absent or empty key. */
  predicate HasKey(apiKey: Option<string>) { apiKey.Some? && |apiKey.value| > 0 }

  /** `generate_response`: a missing key fails before anything is sent;
      otherwise the translated history is sent once, and the first
      candidate's text is returned, cut to at most `maxLength` characters. */
  function GenerateResponse(apiKey: Option<string>, messages: seq<Message>, maxLength: nat,
                            gemini: seq<Content> -> Reply): (r: Result<string, LlmError>)
    ensures !HasKey(apiKey) ==> r == Err(MissingApiKey)
    ensures HasKey(apiKey) ==> (r.Ok? <==> FirstCandidateText(gemini(ToContents(messages))).Ok?)
    ensures r.Ok? ==>
      var full := FirstCandidateText(gemini(ToContents(messages))).value;
      && |r.value| <= maxLength
      && r.value <= full
      && (|full| <= maxLength ==> r.value == full)
      && (|full| > maxLength ==> |r.value| == maxLength)
  {
    if !HasKey(apiKey) then Err(MissingApiKey)
    else
      match FirstCandidateText(gemini(ToContents(messages)))
      case Err(e) => Err(e)
      case Ok(text) => Ok(Take(text, maxLength))
  }

  /** Without a key the reply does not depend on the service at all: no
      request is made. */
  lemma NoKeyNoRequest(apiKey: Option<string>, messages: seq<Message>, maxLength: nat,
                       g1: seq<Content> -> Reply, g2: seq<Content> -> Reply)
    requires !HasKey(apiKey)
    ensures GenerateResponse(apiKey, messages, maxLength, g1) == GenerateResponse(apiKey, messages, maxLength, g2)
  {
  }
}
