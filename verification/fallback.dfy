/** Fallback audio selection (`app/utils/fallback.py` and its copy at the top
    of `main.py`): the contents of the first candidate file that exists, tried
    in a fixed order, or empty bytes. The filesystem is a parameter. */
module Fallback {
  import opened Base

  type Path = string

  /** What probing one path yields: it does not exist, it exists and reads
      back these bytes, or the existence check or the read raises. */
  datatype Probe = Missing | Readable(contents: Bytes) | Raises

  /** An abstract filesystem: each path probes to one outcome. */
  type FileSystem = Path -> Probe

  /** `FALLBACK_AUDIO_CANDIDATES`, in priority order. */
  const Candidates: seq<Path> := [
    "static/audio/fallback.mp3",
    "static/audio/282ee83b-dfa3-4c52-8a7d-5113884c9b17.mp3",
    "static/audio/4dd33907-e332-4435-8289-f427f527e783.mp3",
    "static/audio/61e566e2-c60c-4111-a37b-6ac40ea92ea7.mp3",
    "static/audio/6e4c10a8-6cd6-4d76-9246-1a2001aea43d.mp3",
    "static/audio/897f3d65-908e-41f6-afb7-b6f8021cc5a9.mp3",
    "static/audio/8ea6a778-4a56-4fc5-9132-16aae5032f8a.mp3",
    "static/audio/db2a9484-a00c-4acd-a26a-08870cbd3d7f.mp3",
    "static/audio/e4e571f4-d615-4c64-b8c2-aaf3de318ba3.mp3",
    "static/audio/f32daac2-5143-4513-a1e6-ec8cf7fb8e53.mp3",
    "static/audio/f67ae3f4-5c99-4458-a40f-4119a23ea130.mp3",
    "static/audio/fa69592b-d854-42e8-a40c-6ce1d568fb86.mp3",
    "sample_voice.mp3"
  ]

  /** `FALLBACK_MESSAGE`, the assistant text used whenever a stage fails. */
  const FallbackMessage: string := "I'm having trouble connecting right now. Please try again in a moment."

  /** The candidate list has thirteen distinct entries, from the dedicated
      fallback file down to the sample voice at the repository root. */
  lemma CandidateList()
    ensures |Candidates| == 13
    ensures Candidates[0] == "static/audio/fallback.mp3"
    ensures Candidates[12] == "sample_voice.mp3"
    ensures forall i, j :: 0 <= i < j < |Candidates| ==> Candidates[i] != Candidates[j]
  {
  }

  /** The position of the first readable path, or `|paths|` when there is
      none. */
  function FirstReadable(fs: FileSystem, paths: seq<Path>): (k: nat)
    ensures k <= |paths|
    ensures forall j :: 0 <= j < k ==> !fs(paths[j]).Readable?
    ensures k < |paths| ==> fs(paths[k]).Readable?
  {
    if |paths| == 0 then 0
    else if fs(paths[0]).Readable? then 0
    else 1 + FirstReadable(fs, paths[1..])
  }

  /** The bytes the search yields over a given list: those of the first
      readable path, or empty bytes. */
  function SearchResult(fs: FileSystem, paths: seq<Path>): Bytes
  {
    var k := FirstReadable(fs, paths);
    if k < |paths| then fs(paths[k]).contents else []
  }

  /** `get_fallback_audio_bytes`, as the rest of the model uses it. */
  function FallbackBytes(fs: FileSystem): Bytes
  {
    SearchResult(fs, Candidates)
  }

  /** The loop of `get_fallback_audio_bytes`: probe each path in order, skip
      those that are missing or raise, and return at the first that reads.
      `hit` is the position that ended the search, if any; no later path is
      probed after it, even when the file it names is empty. */
  method SearchFallback(fs: FileSystem, paths: seq<Path>) returns (audio: Bytes, hit: Option<nat>)
    ensures hit.Some? ==> hit.value < |paths| && fs(paths[hit.value]) == Readable(audio)
    ensures hit.Some? ==> forall j :: 0 <= j < hit.value ==> !fs(paths[j]).Readable?
    ensures hit.None? ==> audio == [] && forall j :: 0 <= j < |paths| ==> !fs(paths[j]).Readable?
    ensures audio == SearchResult(fs, paths)
  {
    var i := 0;
    while i < |paths|
      invariant 0 <= i <= |paths|
      invariant forall j :: 0 <= j < i ==> !fs(paths[j]).Readable?
    {
      var probe := fs(paths[i]);
      if probe.Readable? {
        FirstReadableIsFirst(fs, paths, i);
        return probe.contents, Some(i);
      }
      i := i + 1;
    }
    FirstReadableIsFirst(fs, paths, |paths|);
    return [], None;
  }

  /** The first readable position is the only one with nothing readable
      before it. */
  lemma FirstReadableIsFirst(fs: FileSystem, paths: seq<Path>, k: nat)
    requires k <= |paths|
    requires forall j :: 0 <= j < k ==> !fs(paths[j]).Readable?
    requires k < |paths| ==> fs(paths[k]).Readable?
    ensures FirstReadable(fs, paths) == k
  {
  }

  /** A readable first candidate decides the result, even when it is empty
      and a later candidate holds audio. */
  lemma FirstCandidateWins(fs: FileSystem)
    requires fs(Candidates[0]).Readable?
    ensures FallbackBytes(fs) == fs(Candidates[0]).contents
  {
  }

  /** Failing or missing paths before the first readable one do not matter:
      the search over `skipped + rest` equals the search over `rest`. */
  lemma SkipUnreadable(fs: FileSystem, skipped: seq<Path>, rest: seq<Path>)
    requires forall j :: 0 <= j < |skipped| ==> !fs(skipped[j]).Readable?
    ensures FirstReadable(fs, skipped + rest) == |skipped| + FirstReadable(fs, rest)
    ensures SearchResult(fs, skipped + rest) == SearchResult(fs, rest)
  {
    var all, k := skipped + rest, FirstReadable(fs, rest);
    forall j | 0 <= j < |skipped| + k ensures !fs(all[j]).Readable? {
      if j < |skipped| {
        assert all[j] == skipped[j];
      } else {
        assert all[j] == rest[j - |skipped|];
      }
    }
    if k < |rest| {
      assert all[|skipped| + k] == rest[k];
    }
    FirstReadableIsFirst(fs, all, |skipped| + k);
  }

  /** The `/fallback/audio` response: 503 when there is nothing to serve. */
  datatype FallbackResponse = Unavailable503 | AudioStream(audio: Bytes)

  /** `fallback_audio` in `main.py`: streams the fallback bytes, or answers
      503 exactly when they are empty. */
  function FallbackAudio(fs: FileSystem): (r: FallbackResponse)
    ensures r.Unavailable503? <==> |FallbackBytes(fs)| == 0
    ensures r.AudioStream? ==> r.audio == FallbackBytes(fs)
  {
    var audio := FallbackBytes(fs);
    if |audio| == 0 then Unavailable503 else AudioStream(audio)
  }

  /** A 503 does not mean that no candidate exists: an existing but empty
      first candidate also produces it. */
  lemma EmptyFileGives503(fs: FileSystem)
    requires fs(Candidates[0]) == Readable([])
    ensures FallbackAudio(fs) == Unavailable503
  {
  }
}
