/** The one-shot speech endpoint of `app/services/tts.py`: the voice-name
    lookup, and the rule that turns the Murf outcome into a response. */
module Voices {
  import opened Base
  import opened Text
  import Fallback

  /** `VOICE_MAP`: friendly voice names to Murf voice ids. */
  const VoiceMap: map<string, string> := map[
    "default" := "en-US-natalie",
    "narrator" := "en-US-terrell",
    "support" := "en-US-miles",
    "sergeant" := "en-US-ken",
    "game" := "en-US-paul"
  ]

  /** The id used for every name the map does not know. */
  const DefaultVoiceId: string := "en-US-natalie"

  /** `VOICE_MAP.get(voice.lower(), "en-US-natalie")`. */
  function VoiceIdFor(voice: string): (id: string)
    ensures Lower(voice) in VoiceMap ==> id == VoiceMap[Lower(voice)]
    ensures Lower(voice) !in VoiceMap ==> id == DefaultVoiceId
    ensures id in VoiceMap.Values
  {
    var key := Lower(voice);
    assert VoiceMap["default"] == DefaultVoiceId;
    if key in VoiceMap then VoiceMap[key] else DefaultVoiceId
  }

  /** The lookup ignores the case the name is written in. */
  lemma VoiceIdIgnoresCase(voice: string)
    ensures VoiceIdFor(Upper(voice)) == VoiceIdFor(voice)
  {
    LowerOfUpper(voice);
  }

  /** `NARRATOR` is the narrator. */
  lemma ShoutedNarrator()
    ensures VoiceIdFor("NARRATOR") == "en-US-terrell"
  {
    var s := "NARRATOR";
    var l := Lower(s);
    assert l[0] == 'n' && l[1] == 'a' && l[2] == 'r' && l[3] == 'r';
    assert l[4] == 'a' && l[5] == 't' && l[6] == 'o' && l[7] == 'r';
    assert l == "narrator";
  }

  /** Every name outside the map gets the id of `default`. */
  lemma UnknownIsDefault(voice: string)
    requires Lower(voice) !in VoiceMap
    ensures VoiceIdFor(voice) == VoiceMap["default"]
  {
  }

  /** The body of a Murf reply: a JSON object with an optional `audioFile`
      field, or anything else. `NotJson` covers a body `response.json()`
      cannot parse and JSON that is not an object, on which `result.get`
      raises. */
  datatype MurfBody = Json(audioFile: Option<string>) | NotJson

  /** What the Murf speech request produced: an HTTP status and body, or an
      exception from the request itself. */
  datatype MurfOutcome = Responded(status: int, body: MurfBody) | Raised

  /** `generate_speech` answers either with the JSON `{"audio_url": ...}` or
      with a stream of the fallback audio. */
  datatype SpeechResponse = AudioUrl(url: Option<string>) | FallbackStream(audio: Bytes)

  /** The request `generate_speech` sends. */
  datatype SpeechRequest = SpeechRequest(text: string, voiceId: string)

  /** `generate_speech`: a 200 whose body is a JSON object yields the audio
      URL (possibly null); any other status, any other body or an exception
      yields the fallback audio stream. */
  function GenerateSpeech(text: string, voice: string, murf: SpeechRequest -> MurfOutcome,
                          fs: Fallback.FileSystem): (r: SpeechResponse)
    ensures var o := murf(SpeechRequest(text, VoiceIdFor(voice)));
      && (r.AudioUrl? <==> o.Responded? && o.status == 200 && o.body.Json?)
      && (r.AudioUrl? ==> r.url == o.body.audioFile)
      && (r.FallbackStream? ==> r.audio == Fallback.FallbackBytes(fs))
  {
    match murf(SpeechRequest(text, VoiceIdFor(voice)))
    case Responded(status, body) =>
      if status == 200 && body.Json? then AudioUrl(body.audioFile)
      else FallbackStream(Fallback.FallbackBytes(fs))
    case Raised => FallbackStream(Fallback.FallbackBytes(fs))
  }
}
