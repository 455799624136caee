/** `MurfStreamingService` of `app/services/murf_websocket.py` as a state
    machine. Callbacks are identified by opaque ids and what a call hands to
    them is returned as an ordered list of deliveries; the SDK's audio stream
    for a text is a function parameter. */
module MurfStreaming {
  import opened Base
  import opened Text
  import Base64

  type CallbackId = nat

  /** The two callback slots of the service. */
  datatype Slot = WebsocketSlot | AudioSlot

  /** One call of a callback with one Base64 payload. */
  datatype Delivery = Delivery(slot: Slot, callback: CallbackId, payload: string)

  /** The service's fields. `sdkAvailable` is the module-level
      `MURF_SDK_AVAILABLE`; `hasClient` is whether `murf_client` holds a
      client. The `websocket` attribute is only ever set to `None` and is not
      a field here. */
  datatype Service = Service(
    apiKey: string,
    voiceId: string,
    contextId: string,
    sdkAvailable: bool,
    connected: bool,
    hasClient: bool,
    websocketCallback: Option<CallbackId>,
    audioCallback: Option<CallbackId>)
  {
    /** Only a service whose SDK is present and whose client was built is
        connected. */
    predicate Valid() { connected ==> sdkAvailable && hasClient }
  }

  /** `__init__`: not connected, no callbacks. The UUID is a parameter. */
  function NewService(apiKey: string, voiceId: string, contextId: string, sdkAvailable: bool): (s: Service)
    ensures s.Valid() && !s.connected
    ensures s.websocketCallback.None? && s.audioCallback.None?
    ensures s.voiceId == voiceId && s.contextId == contextId
  {
    Service(apiKey, voiceId, contextId, sdkAvailable, false, false, None, None)
  }

  datatype Connection = Connection(ok: bool, service: Service)

  /** `connect`: without the SDK, or when building the client raises, it
      answers `False` and the service stays disconnected; otherwise `True`
      and connected. */
  function Connect(s: Service, clientBuilds: bool): (c: Connection)
    ensures c.ok <==> s.sdkAvailable && clientBuilds
    ensures c.service.connected == c.ok
    ensures s.Valid() ==> c.service.Valid()
    ensures c.service.(connected := s.connected, hasClient := s.hasClient) == s
  {
    if !s.sdkAvailable then Connection(false, s.(connected := false))
    else if !clientBuilds then Connection(false, s.(connected := false))
    else Connection(true, s.(connected := true, hasClient := true))
  }

  /** Hands one payload to the set callbacks: the websocket callback first,
      then the audio callback; an unset slot is skipped. */
  function Emit(s: Service, payload: string): (ds: seq<Delivery>)
    ensures |ds| == SetSlots(s)
    ensures forall k :: 0 <= k < |ds| ==> ds[k].payload == payload
    ensures forall k :: 0 <= k < |ds| ==> SlotOf(s, ds[k].slot) == Some(ds[k].callback)
    ensures |ds| == 2 ==> ds[0].slot == WebsocketSlot && ds[1].slot == AudioSlot
  {
    (if s.websocketCallback.Some? then [Delivery(WebsocketSlot, s.websocketCallback.value, payload)] else [])
    + (if s.audioCallback.Some? then [Delivery(AudioSlot, s.audioCallback.value, payload)] else [])
  }

  /** How many callback slots are set. */
  function SetSlots(s: Service): nat
  {
    (if s.websocketCallback.Some? then 1 else 0) + (if s.audioCallback.Some? then 1 else 0)
  }

  /** Emits each payload in turn. */
  function EmitAll(s: Service, payloads: seq<string>): (ds: seq<Delivery>)
    ensures |ds| == SetSlots(s) * |payloads|
  {
    if |payloads| == 0 then [] else Emit(s, payloads[0]) + EmitAll(s, payloads[1..])
  }

  /** The payloads handed to one slot, in order. */
  function PayloadsTo(ds: seq<Delivery>, slot: Slot): seq<string>
  {
    if |ds| == 0 then []
    else (if ds[0].slot == slot then [ds[0].payload] else []) + PayloadsTo(ds[1..], slot)
  }

  function SlotOf(s: Service, slot: Slot): Option<CallbackId>
  {
    if slot == WebsocketSlot then s.websocketCallback else s.audioCallback
  }

  lemma {:induction false} PayloadsToAppend(a: seq<Delivery>, b: seq<Delivery>, slot: Slot)
    ensures PayloadsTo(a + b, slot) == PayloadsTo(a, slot) + PayloadsTo(b, slot)
  {
    if |a| > 0 {
      assert (a + b)[0] == a[0];
      assert (a + b)[1..] == a[1..] + b;
      PayloadsToAppend(a[1..], b, slot);
    } else {
      assert a + b == b;
    }
  }

  lemma EmitOneSlot(s: Service, payload: string, slot: Slot)
    ensures PayloadsTo(Emit(s, payload), slot) == if SlotOf(s, slot).Some? then [payload] else []
  {
    var ws := if s.websocketCallback.Some? then [Delivery(WebsocketSlot, s.websocketCallback.value, payload)] else [];
    var au := if s.audioCallback.Some? then [Delivery(AudioSlot, s.audioCallback.value, payload)] else [];
    PayloadsToAppend(ws, au, slot);
  }

  /** Each set slot receives every payload, once each and in order; an unset
      slot receives nothing. */
  lemma {:induction false} EmitAllPerSlot(s: Service, payloads: seq<string>, slot: Slot)
    ensures PayloadsTo(EmitAll(s, payloads), slot) == if SlotOf(s, slot).Some? then payloads else []
  {
    if |payloads| > 0 {
      var head := Emit(s, payloads[0]);
      PayloadsToAppend(head, EmitAll(s, payloads[1..]), slot);
      EmitAllPerSlot(s, payloads[1..], slot);
      EmitOneSlot(s, payloads[0], slot);
      if SlotOf(s, slot).Some? {
        assert [payloads[0]] + payloads[1..] == payloads;
      }
    }
  }

  /** With both callbacks set, payload `i` goes to the websocket callback
      right before it goes to the audio callback, and before any later
      payload goes anywhere. */
  lemma {:induction false} EmitAllInterleaves(s: Service, payloads: seq<string>, i: nat)
    requires s.websocketCallback.Some? && s.audioCallback.Some?
    requires i < |payloads|
    ensures EmitAll(s, payloads)[2 * i] == Delivery(WebsocketSlot, s.websocketCallback.value, payloads[i])
    ensures EmitAll(s, payloads)[2 * i + 1] == Delivery(AudioSlot, s.audioCallback.value, payloads[i])
  {
    if i > 0 {
      EmitAllInterleaves(s, payloads[1..], i - 1);
      assert EmitAll(s, payloads) == Emit(s, payloads[0]) + EmitAll(s, payloads[1..]);
    }
  }

  /** The mock text is cut to this many characters. */
  const MockTextLength: nat := 20

  const MockPrefix: string := "MOCK_AUDIO_DATA_"

  /** The mock payload: Base64 of the UTF-8 of `MOCK_AUDIO_DATA_` and the
      first 20 characters of the text. */
  function MockPayload(text: string): (p: string)
    ensures Base64.Decode(p) == Some(Utf8(MockPrefix + Take(text, MockTextLength)))
    ensures |p| > 0
  {
    var raw := Utf8(MockPrefix + Take(text, MockTextLength));
    Base64.DecodeEncode(raw);
    Base64.Encode(raw)
  }

  /** Since the decoder accepts only the encoder's outputs, the mock
      payload is exactly what `base64.b64encode` produces for those bytes. */
  lemma MockPayloadIsEncoding(text: string)
    ensures MockPayload(text) == Base64.Encode(Utf8(MockPrefix + Take(text, MockTextLength)))
  {
    Base64.EncodeDecode(MockPayload(text), Utf8(MockPrefix + Take(text, MockTextLength)));
  }

  /** The mock payload depends only on the first 20 characters of the
      text. */
  lemma MockIgnoresTail(text: string, more: string)
    requires |text| >= MockTextLength
    ensures MockPayload(text + more) == MockPayload(text)
  {
    assert Take(text + more, MockTextLength) == Take(text, MockTextLength);
  }

  /** The SDK's `text_to_speech.stream(text=..., voice_id=...)`: the audio
      chunks it yields, in order. */
  type AudioStream = (string, string) -> seq<Bytes>

  function EncodeAll(chunks: seq<Bytes>): (ps: seq<string>)
    ensures |ps| == |chunks|
    ensures forall i :: 0 <= i < |chunks| ==> ps[i] == Base64.Encode(chunks[i])
  {
    if |chunks| == 0 then [] else [Base64.Encode(chunks[0])] + EncodeAll(chunks[1..])
  }

  datatype Sent = Sent(ok: bool, deliveries: seq<Delivery>)

  /** `send_text_chunk`, `is_final` aside (it is only logged): when not
      connected (or without the SDK) one mock payload, otherwise one Base64
      payload per streamed chunk in stream order, each handed to the set
      callbacks websocket first. */
  function SendTextChunk(s: Service, text: string, isFinal: bool, sdk: AudioStream): (r: Sent)
    ensures r.ok
    ensures !s.connected || !s.sdkAvailable ==> r.deliveries == Emit(s, MockPayload(text))
    ensures s.connected && s.sdkAvailable ==>
      var chunks := sdk(text, s.voiceId);
      && r.deliveries == EmitAll(s, EncodeAll(chunks))
      && |r.deliveries| == SetSlots(s) * |chunks|
      && forall slot :: PayloadsTo(r.deliveries, slot) ==
           if SlotOf(s, slot).Some? then EncodeAll(chunks) else []
  {
    if !s.connected || !s.sdkAvailable then Sent(true, Emit(s, MockPayload(text)))
    else
      var payloads := EncodeAll(sdk(text, s.voiceId));
      var ds := EmitAll(s, payloads);
      assert forall slot :: PayloadsTo(ds, slot) == if SlotOf(s, slot).Some? then payloads else [] by {
        forall slot ensures PayloadsTo(ds, slot) == if SlotOf(s, slot).Some? then payloads else [] {
          EmitAllPerSlot(s, payloads, slot);
        }
      }
      Sent(true, ds)
  }

  /** Connected, with both callbacks set, chunk `i` of the stream goes to the
      websocket callback, Base64-encoded, immediately before it goes to the
      audio callback, and both before chunk `i + 1`. */
  lemma SendInterleaves(s: Service, text: string, isFinal: bool, sdk: AudioStream, i: nat)
    requires s.connected && s.sdkAvailable
    requires s.websocketCallback.Some? && s.audioCallback.Some?
    requires i < |sdk(text, s.voiceId)|
    ensures var ds, chunk := SendTextChunk(s, text, isFinal, sdk).deliveries, sdk(text, s.voiceId)[i];
      && ds[2 * i] == Delivery(WebsocketSlot, s.websocketCallback.value, Base64.Encode(chunk))
      && ds[2 * i + 1] == Delivery(AudioSlot, s.audioCallback.value, Base64.Encode(chunk))
  {
    EmitAllInterleaves(s, EncodeAll(sdk(text, s.voiceId)), i);
  }

  /** A disconnected service hands each set callback exactly the one mock
      payload. */
  lemma MockReachesEachSlotOnce(s: Service, text: string, isFinal: bool, sdk: AudioStream, slot: Slot)
    requires !s.connected
    ensures PayloadsTo(SendTextChunk(s, text, isFinal, sdk).deliveries, slot)
         == if SlotOf(s, slot).Some? then [MockPayload(text)] else []
  {
    EmitOneSlot(s, MockPayload(text), slot);
  }

  datatype Cleared = Cleared(ok: bool, service: Service)

  /** `clear_context`: a new context id (the UUID is a parameter); nothing
      else changes. */
  function ClearContext(s: Service, freshId: string): (c: Cleared)
    ensures c.ok
    ensures c.service.contextId == freshId
    ensures c.service.(contextId := s.contextId) == s
  {
    Cleared(true, s.(contextId := freshId))
  }

  /** `set_audio_callback`: replaces the audio slot only. */
  function SetAudioCallback(s: Service, callback: CallbackId): (r: Service)
    ensures r.audioCallback == Some(callback)
    ensures r.(audioCallback := s.audioCallback) == s
  {
    s.(audioCallback := Some(callback))
  }

  /** `set_websocket_callback`: replaces the websocket slot only. */
  function SetWebsocketCallback(s: Service, callback: CallbackId): (r: Service)
    ensures r.websocketCallback == Some(callback)
    ensures r.(websocketCallback := s.websocketCallback) == s
  {
    s.(websocketCallback := Some(callback))
  }

  /** `close`: always ends disconnected and without a client; callbacks,
      voice and context stay. */
  function Close(s: Service): (r: Service)
    ensures !r.connected && !r.hasClient && r.Valid()
    ensures r.(connected := s.connected, hasClient := s.hasClient) == s
  {
    s.(connected := false, hasClient := false)
  }

  /** After `close`, sending falls back to the mock payload. */
  lemma SendAfterClose(s: Service, text: string, isFinal: bool, sdk: AudioStream)
    ensures SendTextChunk(Close(s), text, isFinal, sdk).deliveries == Emit(Close(s), MockPayload(text))
  {
  }
}
