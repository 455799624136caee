/** The inbound audio chunk checks of `app/utils/audio_converter.py`: a
    byte-prefix classifier and a pass-through converter. */
module AudioChunks {
  import opened Base

  /** The EBML magic number that opens every WebM/Matroska stream. */
  const WebmMagic: Bytes := [0x1A, 0x45, 0xDF, 0xA3]

  /** The Ogg capture pattern `OggS` (section 6 of RFC 3533). */
  const OggMagic: Bytes := [0x4F, 0x67, 0x67, 0x53]

  /** Chunks with neither signature must be longer than this to pass. */
  const MinRawLength: nat := 100

  /** `is_valid_audio_chunk`: a non-empty chunk that carries a WebM or Ogg
      signature, or is long enough to be raw audio. */
  function IsValidAudioChunk(chunk: Bytes): (valid: bool)
    ensures valid <==> |chunk| > MinRawLength || WebmMagic <= chunk || OggMagic <= chunk
    ensures |chunk| == 0 ==> !valid
  {
    if |chunk| == 0 then false
    else if WebmMagic <= chunk then true
    else if OggMagic <= chunk then true
    else |chunk| > MinRawLength
  }

  /** A signature needs four bytes, so chunks of one to three bytes never pass,
      while every chunk over the raw threshold does. */
  lemma ValidityByLength(chunk: Bytes)
    ensures 1 <= |chunk| <= 3 ==> !IsValidAudioChunk(chunk)
    ensures |chunk| > MinRawLength ==> IsValidAudioChunk(chunk)
  {
  }

  /** A signature alone decides, whatever follows it. */
  lemma SignatureSuffices(rest: Bytes)
    ensures IsValidAudioChunk(WebmMagic + rest)
    ensures IsValidAudioChunk(OggMagic + rest)
  {
    assert WebmMagic <= WebmMagic + rest;
    assert OggMagic <= OggMagic + rest;
  }

  /** `convert_audio_chunk_to_pcm`: non-empty chunks pass through unchanged,
      whatever the sample rate; an empty chunk falls off the end of the `try`
      and yields `None`. */
  function ConvertAudioChunkToPcm(chunk: Bytes, sampleRate: int): (r: Option<Bytes>)
    ensures r.Some? <==> |chunk| > 0
    ensures r.Some? ==> r.value == chunk
  {
    if |chunk| > 0 then Some(chunk) else None
  }

  /** Every chunk the validator accepts survives the converter unchanged. */
  lemma ValidChunksPassThrough(chunk: Bytes, sampleRate: int)
    requires IsValidAudioChunk(chunk)
    ensures ConvertAudioChunkToPcm(chunk, sampleRate) == Some(chunk)
  {
  }
}
