/** The playback side of `AudioStreamClient` in `static/script.js`: a bounded
    FIFO of decoded audio buffers with a start threshold, pause and playing
    flags, a status classifier, and clamped rate and volume. Events are taken
    one at a time; Web Audio and the DOM are left out, and the audio clock
    (`audioContext.currentTime`) is a parameter. */
module PlaybackQueue {

  /** A decoded `AudioBuffer`; only its duration (seconds) matters here. */
  datatype AudioBuffer = AudioBuffer(id: nat, duration: real)

  datatype Client = Client(
    audioChunks: seq<string>,
    streamingAudioChunks: seq<string>,
    isConnected: bool,
    hasContext: bool,
    queue: seq<AudioBuffer>,
    isPlaying: bool,
    isPaused: bool,
    hasSource: bool,
    playbackRate: real,
    volume: real,
    lastPlayTime: real)
  {
    /** What holds between events: the queue stays within its bound, the
        client is never both playing and paused, and rate and volume stay in
        their ranges. */
    predicate Valid()
    {
      && |queue| <= MaxBufferSize
      && !(isPlaying && isPaused)
      && MinRate <= playbackRate <= MaxRate
      && 0.0 <= volume <= 1.0
    }
  }

  /** `bufferSize`: chunks needed before playback starts. */
  const BufferSize: nat := 4
  /** `maxBufferSize`: chunks beyond which new ones are dropped. */
  const MaxBufferSize: nat := 8
  const MinRate: real := 0.5
  const MaxRate: real := 4.0

  /** The constructor's state, before the socket opens. */
  function NewClient(): (c: Client)
    ensures c.Valid() && |c.queue| == 0 && !c.isPlaying && !c.isPaused && !c.hasContext
    ensures !c.isConnected && c.playbackRate == 1.0 && c.volume == 1.0
  {
    Client([], [], false, false, [], false, false, false, 1.0, 1.0, 0.0)
  }

  /** `onopen`: connected, and `initializeAudioContext` creates the audio
      context unless one exists. `created` says whether the `AudioContext`
      constructor succeeds; when it throws, the error is swallowed and the
      client stays without a context. */
  function OnOpen(c: Client, created: bool): (r: Client)
    ensures r.isConnected
    ensures r.hasContext <==> c.hasContext || created
    ensures r.(isConnected := c.isConnected, hasContext := c.hasContext) == c
  {
    if c.hasContext || !created then c.(isConnected := true)
    else c.(isConnected := true, hasContext := true)
  }

  /** `onclose`: disconnected; the audio state is untouched (the reconnect
      timer is left out). */
  function OnClose(c: Client): (r: Client)
    ensures !r.isConnected
    ensures r.(isConnected := c.isConnected) == c
  {
    c.(isConnected := false)
  }

  function Max(a: real, b: real): real { if a >= b then a else b }

  /** `after` is `pending` or `pending` without its head: the only way the
      queue gives up a buffer is from the front. */
  predicate Shifted(pending: seq<AudioBuffer>, after: seq<AudioBuffer>)
  {
    after == pending || (|pending| > 0 && after == pending[1..])
  }

  /** `r` differs from `c` at most in the queue, the playing flag, the
      source and the play clock: the fields playback itself moves. */
  predicate OnlyPlaybackChanged(c: Client, r: Client)
  {
    && r.audioChunks == c.audioChunks
    && r.streamingAudioChunks == c.streamingAudioChunks
    && r.isConnected == c.isConnected
    && r.hasContext == c.hasContext
    && r.isPaused == c.isPaused
    && r.playbackRate == c.playbackRate
    && r.volume == c.volume
  }

  /** `playNextChunk`: nothing happens while paused, while playing, or while
      fewer than `bufferSize` chunks wait; otherwise the head of the queue is
      scheduled at `max(now, lastPlayTime)` and the client is playing. */
  function PlayNextChunk(c: Client, now: real): (r: Client)
    ensures c.isPaused || c.isPlaying || |c.queue| < BufferSize ==> r == c
    ensures !(c.isPaused || c.isPlaying || |c.queue| < BufferSize) ==>
      && r.isPlaying
      && [c.queue[0]] + r.queue == c.queue
      && r.lastPlayTime == Max(now, c.lastPlayTime) + c.queue[0].duration
      && OnlyPlaybackChanged(c, r)
    ensures Shifted(c.queue, r.queue)
    ensures c.Valid() ==> r.Valid()
  {
    if c.isPaused || c.isPlaying || |c.queue| == 0 then c
    else if |c.queue| < BufferSize && |c.queue| < MaxBufferSize then c
    else
      var head := c.queue[0];
      var start := Max(now, c.lastPlayTime);
      c.(isPlaying := true, queue := c.queue[1..], hasSource := true, lastPlayTime := start + head.duration)
  }

  /** The source's `onended`: the source is dropped, playback of the
      current chunk is over, and the next one is tried if any wait. */
  function OnEnded(c: Client, now: real): (r: Client)
    ensures c.Valid() ==> r.Valid()
    ensures !r.isPlaying ==> !r.hasSource
    ensures c.isPaused || |c.queue| < BufferSize ==>
      !r.isPlaying && r.queue == c.queue && r.lastPlayTime == c.lastPlayTime
    ensures !c.isPaused && |c.queue| >= BufferSize ==>
      && r.isPlaying
      && [c.queue[0]] + r.queue == c.queue
      && r.lastPlayTime == Max(now, c.lastPlayTime) + c.queue[0].duration
    ensures Shifted(c.queue, r.queue)
    ensures OnlyPlaybackChanged(c, r)
  {
    var idle := c.(isPlaying := false, hasSource := false);
    if |idle.queue| > 0 then PlayNextChunk(idle, now) else idle
  }

  /** The source's `onerror`: like `onended`, except that the source is
      kept; playing stops and the next chunk is tried if any wait. */
  function OnError(c: Client, now: real): (r: Client)
    ensures c.Valid() ==> r.Valid()
    ensures !r.isPlaying ==> r.hasSource == c.hasSource
    ensures c.isPaused || |c.queue| < BufferSize ==>
      r == c.(isPlaying := false)
    ensures !c.isPaused && |c.queue| >= BufferSize ==>
      && r.isPlaying
      && [c.queue[0]] + r.queue == c.queue
      && r.lastPlayTime == Max(now, c.lastPlayTime) + c.queue[0].duration
    ensures Shifted(c.queue, r.queue)
    ensures OnlyPlaybackChanged(c, r)
  {
    var idle := c.(isPlaying := false);
    if |idle.queue| > 0 then PlayNextChunk(idle, now) else idle
  }

  /** `onerror` and `onended` leave the same state but for the source, and
      they agree on it too whenever the next chunk starts. */
  lemma ErrorIsEndedKeepingSource(c: Client, now: real)
    ensures OnError(c, now).(hasSource := OnEnded(c, now).hasSource) == OnEnded(c, now)
    ensures OnError(c, now).isPlaying ==> OnError(c, now) == OnEnded(c, now)
  {
  }

  /** How a base64 chunk fares on its way into the queue: `atob` rejects it,
      `decodeAudioData` rejects it, or it decodes to a buffer. */
  datatype Decoding = NotBase64 | Undecodable | Decoded(buffer: AudioBuffer)

  /** The buffer `queueAudioChunk` appends: a decoded one, when the queue
      has room. */
  function Accepted(c: Client, decoding: Decoding): (a: seq<AudioBuffer>)
    ensures |a| <= 1
  {
    if decoding.Decoded? && |c.queue| < MaxBufferSize then [decoding.buffer] else []
  }

  /** The recovery after a failed decode: the next chunk is tried if any
      wait. Playback starts exactly when the client was idle, unpaused and at
      the threshold. */
  function Recover(c: Client, now: real): (r: Client)
    ensures |c.queue| > 0 ==> r == PlayNextChunk(c, now)
    ensures |c.queue| == 0 ==> r == c
    ensures (r.isPlaying <==> c.isPlaying || (!c.isPaused && |c.queue| >= BufferSize))
    ensures r.isPlaying && !c.isPlaying ==>
      && [c.queue[0]] + r.queue == c.queue
      && r.lastPlayTime == Max(now, c.lastPlayTime) + c.queue[0].duration
    ensures !(r.isPlaying && !c.isPlaying) ==> r == c
    ensures Shifted(c.queue, r.queue)
    ensures OnlyPlaybackChanged(c, r)
    ensures c.Valid() ==> r.Valid()
  {
    if |c.queue| > 0 then PlayNextChunk(c, now) else c
  }

  /** The decoded branch: the buffer joins the tail of the queue and, unless
      a chunk is already playing, playback is tried. */
  function Enqueue(c: Client, buffer: AudioBuffer, now: real): (r: Client)
    ensures c.isPlaying ==> r == c.(queue := c.queue + [buffer])
    ensures !c.isPlaying ==> r == PlayNextChunk(c.(queue := c.queue + [buffer]), now)
    ensures Shifted(c.queue + [buffer], r.queue)
    ensures OnlyPlaybackChanged(c, r)
    ensures c.Valid() && |c.queue| < MaxBufferSize ==> r.Valid()
  {
    var grown := c.(queue := c.queue + [buffer]);
    if !grown.isPlaying then PlayNextChunk(grown, now) else grown
  }

  /** `queueAudioChunk`: a full queue drops the chunk; only a decoded chunk is
      appended, at the tail, and playback is then tried. */
  function QueueAudioChunk(c: Client, decoding: Decoding, now: real): (r: Client)
    ensures |c.queue| >= MaxBufferSize ==> r == c
    ensures c.Valid() ==> r.Valid()
    ensures |c.queue| < MaxBufferSize && decoding.Decoded? ==>
      var grown := c.queue + [decoding.buffer];
      r.queue == grown || r.queue == grown[1..]
    ensures |c.queue| < MaxBufferSize && decoding.Decoded? && !c.isPlaying ==>
      r == PlayNextChunk(c.(queue := c.queue + [decoding.buffer]), now)
    ensures decoding.NotBase64? ==> r == c
    ensures |c.queue| < MaxBufferSize && decoding.Decoded? && c.isPlaying ==>
      r == c.(queue := c.queue + [decoding.buffer])
    ensures |c.queue| < MaxBufferSize && decoding.Undecodable? ==> r == Recover(c, now)
    ensures decoding.Undecodable? ==> r.queue == c.queue || (|c.queue| > 0 && r.queue == c.queue[1..])
    ensures decoding.Undecodable? ==>
      (r.isPlaying <==> c.isPlaying || (!c.isPaused && BufferSize <= |c.queue| < MaxBufferSize))
    ensures Shifted(c.queue + Accepted(c, decoding), r.queue)
    ensures OnlyPlaybackChanged(c, r)
  {
    if |c.queue| >= MaxBufferSize then c
    else
      match decoding
      case NotBase64 => c
      case Undecodable => Recover(c, now)
      case Decoded(buffer) => Enqueue(c, buffer, now)
  }

  /** The status `updateBufferStatus` shows. */
  datatype Status = Paused | Playing | Buffering | Ready | Idle

  /** Paused wins over playing, playing over the queue's fill level; a
      non-empty queue below the threshold is buffering, at or above it ready,
      and an empty one idle. */
  function StatusOf(c: Client): (s: Status)
    ensures s == Paused <==> c.isPaused
    ensures s == Playing <==> !c.isPaused && c.isPlaying
    ensures s == Buffering <==> !c.isPaused && !c.isPlaying && 0 < |c.queue| < BufferSize
    ensures s == Ready <==> !c.isPaused && !c.isPlaying && |c.queue| >= BufferSize
    ensures s == Idle <==> !c.isPaused && !c.isPlaying && |c.queue| == 0
  {
    if c.isPaused then Paused
    else if c.isPlaying then Playing
    else if |c.queue| > 0 then (if |c.queue| < BufferSize then Buffering else Ready)
    else Idle
  }

  /** The status predicts `playNextChunk`: it starts playback exactly when
      the status is ready. */
  lemma ReadyIffPlaybackStarts(c: Client, now: real)
    ensures PlayNextChunk(c, now).isPlaying && !c.isPlaying <==> StatusOf(c) == Ready
  {
  }

  /** `pause`: only a playing client with an audio context pauses. */
  function Pause(c: Client): (r: Client)
    ensures c.isPlaying && c.hasContext ==> r.isPaused && !r.isPlaying && r.(isPaused := c.isPaused, isPlaying := c.isPlaying) == c
    ensures !(c.isPlaying && c.hasContext) ==> r == c
    ensures c.Valid() ==> r.Valid()
  {
    if c.isPlaying && c.hasContext then c.(isPaused := true, isPlaying := false) else c
  }

  /** `resume`: a paused client with an audio context unpauses and tries to
      play the next chunk. */
  function Resume(c: Client, now: real): (r: Client)
    ensures c.isPaused && c.hasContext ==> !r.isPaused
    ensures c.isPaused && c.hasContext ==> (r.isPlaying <==> |c.queue| >= BufferSize)
    ensures c.isPaused && c.hasContext && |c.queue| >= BufferSize ==>
      && [c.queue[0]] + r.queue == c.queue
      && r.lastPlayTime == Max(now, c.lastPlayTime) + c.queue[0].duration
    ensures c.isPaused && c.hasContext && |c.queue| < BufferSize ==> r.queue == c.queue
    ensures c.isPaused && c.hasContext && |c.queue| < BufferSize ==>
      r == c.(isPaused := false, isPlaying := false)
    ensures !(c.isPaused && c.hasContext) ==> r == c
    ensures r.(isPaused := c.isPaused, queue := c.queue, isPlaying := c.isPlaying,
               hasSource := c.hasSource, lastPlayTime := c.lastPlayTime) == c
    ensures Shifted(c.queue, r.queue)
    ensures c.Valid() ==> r.Valid()
  {
    if c.isPaused && c.hasContext then PlayNextChunk(c.(isPaused := false, isPlaying := false), now) else c
  }

  /** `setPlaybackRate`: the rate clamped to [0.5, 4.0]. */
  function SetPlaybackRate(c: Client, rate: real): (r: Client)
    ensures MinRate <= r.playbackRate <= MaxRate
    ensures MinRate <= rate <= MaxRate ==> r.playbackRate == rate
    ensures rate < MinRate ==> r.playbackRate == MinRate
    ensures rate > MaxRate ==> r.playbackRate == MaxRate
    ensures r.(playbackRate := c.playbackRate) == c
  {
    c.(playbackRate := if rate > MaxRate then MaxRate else if rate < MinRate then MinRate else rate)
  }

  /** `setVolume`: the volume clamped to [0, 1]. */
  function SetVolume(c: Client, volume: real): (r: Client)
    ensures 0.0 <= r.volume <= 1.0
    ensures 0.0 <= volume <= 1.0 ==> r.volume == volume
    ensures volume < 0.0 ==> r.volume == 0.0
    ensures volume > 1.0 ==> r.volume == 1.0
    ensures r.(volume := c.volume) == c
  {
    c.(volume := if volume > 1.0 then 1.0 else if volume < 0.0 then 0.0 else volume)
  }

  /** `cleanup`: pauses, drops the source, the context and every queued
      chunk, and resets the flags and the clock; the message arrays, rate and
      volume are kept. */
  function Cleanup(c: Client): (r: Client)
    ensures |r.queue| == 0 && !r.isPlaying && !r.isPaused && r.lastPlayTime == 0.0
    ensures !r.hasContext && !r.hasSource
    ensures r.audioChunks == c.audioChunks && r.streamingAudioChunks == c.streamingAudioChunks
    ensures r.isConnected == c.isConnected
    ensures r.playbackRate == c.playbackRate && r.volume == c.volume
    ensures StatusOf(r) == Idle
  {
    var paused := Pause(c);
    paused.(hasSource := false, hasContext := false, queue := [], isPlaying := false,
            isPaused := false, lastPlayTime := 0.0)
  }

  /** The messages `onmessage` distinguishes; `Other` stands for any other
      type and for text that is not JSON. */
  datatype Message = AudioChunk(data: string) | StreamingAudio(base64Audio: string) | StreamComplete | Other

  /** `onmessage`: `audio_chunk` is recorded and, with an audio context,
      queued for playback; `streaming_audio` is only recorded;
      `stream_complete` empties the `audio_chunk` record. */
  function OnMessage(c: Client, m: Message, decoding: Decoding, now: real): (r: Client)
    ensures m.AudioChunk? ==> r.audioChunks == c.audioChunks + [m.data]
    ensures m.AudioChunk? ==> OnlyPlaybackChanged(c.(audioChunks := c.audioChunks + [m.data]), r)
    ensures m.AudioChunk? && !c.hasContext ==> r == c.(audioChunks := c.audioChunks + [m.data])
    ensures m.AudioChunk? && c.hasContext ==>
      r == QueueAudioChunk(c.(audioChunks := c.audioChunks + [m.data]), decoding, now)
    ensures m.StreamingAudio? ==> r == c.(streamingAudioChunks := c.streamingAudioChunks + [m.base64Audio])
    ensures m.StreamComplete? ==> r == c.(audioChunks := [])
    ensures m.Other? ==> r == c
    ensures m.StreamingAudio? ==> r.streamingAudioChunks == c.streamingAudioChunks + [m.base64Audio]
    ensures !m.StreamingAudio? ==> r.streamingAudioChunks == c.streamingAudioChunks
    ensures m.StreamComplete? ==> r.audioChunks == []
    ensures m.AudioChunk? && !c.hasContext ==> r.queue == c.queue
    ensures !m.AudioChunk? ==> r.queue == c.queue
    ensures Shifted(c.queue + (if m.AudioChunk? && c.hasContext then Accepted(c, decoding) else []), r.queue)
    ensures c.Valid() ==> r.Valid()
  {
    match m
    case AudioChunk(data) =>
      var recorded := c.(audioChunks := c.audioChunks + [data]);
      if recorded.hasContext then QueueAudioChunk(recorded, decoding, now) else recorded
    case StreamingAudio(b) => c.(streamingAudioChunks := c.streamingAudioChunks + [b])
    case StreamComplete => c.(audioChunks := [])
    case Other => c
  }

  /** One thing that can happen to the client. */
  datatype Event =
    | Open(contextCreated: bool)
    | Close
    | Receive(message: Message, decoding: Decoding, now: real)
    | Ended(now: real)
    | Errored(now: real)
    | TimerFired(now: real)
    | PauseClicked
    | ResumeClicked(now: real)
    | RateSet(rate: real)
    | VolumeSet(volume: real)
    | CleanedUp

  function Step(c: Client, e: Event): (r: Client)
    ensures c.Valid() ==> r.Valid()
    ensures !e.CleanedUp? ==> Shifted(c.queue + Arrived(c, e), r.queue)
  {
    match e
    case Open(created) => OnOpen(c, created)
    case Close => OnClose(c)
    case Receive(m, d, now) => OnMessage(c, m, d, now)
    case Ended(now) => OnEnded(c, now)
    case Errored(now) => OnError(c, now)
    case TimerFired(now) => PlayNextChunk(c, now)
    case PauseClicked => Pause(c)
    case ResumeClicked(now) => Resume(c, now)
    case RateSet(rate) => SetPlaybackRate(c, rate)
    case VolumeSet(v) => SetVolume(c, v)
    case CleanedUp => Cleanup(c)
  }

  function Run(c: Client, events: seq<Event>): Client
    decreases |events|
  {
    if |events| == 0 then c else Run(Step(c, events[0]), events[1..])
  }

  /** Handled one at a time, no sequence of events takes the queue past
      eight chunks, makes the client both playing and paused, or moves rate
      or volume out of range. */
  lemma {:induction false} RunStaysValid(c: Client, events: seq<Event>)
    requires c.Valid()
    ensures Run(c, events).Valid()
    ensures |Run(c, events).queue| <= MaxBufferSize
    decreases |events|
  {
    if |events| > 0 {
      RunStaysValid(Step(c, events[0]), events[1..]);
    }
  }

  /** The buffer an event appends to the queue: a decoded `audio_chunk`
      that arrives with an audio context and room in the queue. */
  function Arrived(c: Client, e: Event): (a: seq<AudioBuffer>)
    ensures |a| <= 1
  {
    if e.Receive? && e.message.AudioChunk? && c.hasContext then Accepted(c, e.decoding) else []
  }

  /** The buffer an event takes off the queue to play: the head of the
      queue, arrivals included, when the queue shrinks. */
  function Started(c: Client, e: Event): seq<AudioBuffer>
  {
    var pending := c.queue + Arrived(c, e);
    if |Step(c, e).queue| < |pending| && |pending| > 0 then pending[..1] else []
  }

  /** Short of a cleanup, an event appends at the tail at most the buffer
      that arrived and removes at most the head: nothing is reordered, lost
      or duplicated. */
  lemma StepIsFifo(c: Client, e: Event)
    requires !e.CleanedUp?
    ensures Started(c, e) + Step(c, e).queue == c.queue + Arrived(c, e)
  {
    var pending := c.queue + Arrived(c, e);
    var after := Step(c, e).queue;
    if |after| < |pending| {
      assert pending[..1] + pending[1..] == pending;
    }
  }

  /** The buffers accepted over a run of events, in order of arrival. */
  function Arrivals(c: Client, events: seq<Event>): seq<AudioBuffer>
    decreases |events|
  {
    if |events| == 0 then [] else Arrived(c, events[0]) + Arrivals(Step(c, events[0]), events[1..])
  }

  /** The buffers started over a run of events, in order of playback. */
  function Starts(c: Client, events: seq<Event>): seq<AudioBuffer>
    decreases |events|
  {
    if |events| == 0 then [] else Started(c, events[0]) + Starts(Step(c, events[0]), events[1..])
  }

  predicate NoCleanup(events: seq<Event>)
  {
    forall i :: 0 <= i < |events| ==> !events[i].CleanedUp?
  }

  /** The queue is first in, first out: without a cleanup, the buffers played
      followed by those still waiting are exactly those that were waiting
      followed by those accepted, in arrival order. */
  lemma {:induction false} RunIsFifo(c: Client, events: seq<Event>)
    requires NoCleanup(events)
    ensures Starts(c, events) + Run(c, events).queue == c.queue + Arrivals(c, events)
    decreases |events|
  {
    if |events| > 0 {
      var e, next := events[0], Step(c, events[0]);
      StepIsFifo(c, e);
      assert NoCleanup(events[1..]) by {
        forall i | 0 <= i < |events[1..]| ensures !events[1..][i].CleanedUp? {
          assert events[1..][i] == events[i + 1];
        }
      }
      var rest := events[1..];
      RunIsFifo(next, rest);
      assert Starts(c, events) == Started(c, e) + Starts(next, rest);
      assert Arrivals(c, events) == Arrived(c, e) + Arrivals(next, rest);
      assert Run(c, events) == Run(next, rest);
      Regroup(Started(c, e), Starts(next, rest), Run(next, rest).queue, next.queue,
              c.queue, Arrived(c, e), Arrivals(next, rest));
    }
  }

  lemma Regroup<T>(s0: seq<T>, s1: seq<T>, q: seq<T>, q1: seq<T>, q0: seq<T>, a0: seq<T>, a1: seq<T>)
    requires s1 + q == q1 + a1
    requires s0 + q1 == q0 + a0
    ensures (s0 + s1) + q == q0 + (a0 + a1)
  {
    calc {
      (s0 + s1) + q;
      s0 + (q1 + a1);
      (s0 + q1) + a1;
      (q0 + a0) + a1;
    }
  }

  /** From a fresh client, the bound holds after any events. */
  lemma QueueNeverExceedsMax(events: seq<Event>)
    ensures |Run(NewClient(), events).queue| <= MaxBufferSize
  {
    RunStaysValid(NewClient(), events);
  }
}
