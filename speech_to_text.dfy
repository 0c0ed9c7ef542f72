/** Transcription of a recording (backend/controller/marcel/speech_to_text.py).
    The decoded audio is a sequence indexed by milliseconds; the transcription
    service is the parameter `transcribe`, None for a request that raises;
    whether the ffmpeg and ffprobe binaries exist and are executable is the
    parameter `bins`. */
module SpeechToText {
  import opened Wrappers
  import opened Seqs

  /** Recordings up to this length are transcribed in one request. */
  const DirectLimitMs: int := 60000
  /** Longer recordings are cut into slices of this length. */
  const ChunkMs: nat := 120 * 1000
  const Separator: string := " "

  /** The two helper binaries next to the module. */
  datatype Binaries = Binaries(ffmpegExecutable: bool, ffprobeExecutable: bool)

  /** Why no transcript is returned. */
  datatype SttError =
    | FfmpegNotFound          // the FileNotFoundError for ffmpeg
    | FfprobeNotFound         // the FileNotFoundError for ffprobe
    | RequestFailed(clip: nat) // the error a transcription request raised, for the clip at this position

  /** `audio[i:i + 120000]` for `i` in `range(0, len(audio), 120000)`: as many
      slices as 120 s periods started, tiling the recording in order. */
  function AudioChunks<T>(audio: seq<T>): (chunks: seq<seq<T>>)
    ensures |chunks| == CeilDiv(|audio|, ChunkMs)
    ensures Flatten(chunks) == audio
  {
    RangeLength(0, |audio|, ChunkMs);
    SlicesTile(audio, 0, ChunkMs);
    Slices(audio, 0, ChunkMs, ChunkMs)
  }

  /** The clips sent to the transcription service, in submission order: the
      whole recording up to 60 s, its 120 s slices beyond. Either way there is
      at least one clip and the clips give back the recording. */
  function Clips<T>(audio: seq<T>): (clips: seq<seq<T>>)
    ensures |clips| >= 1
    ensures Flatten(clips) == audio
    ensures |audio| <= DirectLimitMs ==> clips == [audio]
    ensures |audio| > DirectLimitMs ==> clips == AudioChunks(audio)
  {
    if |audio| <= DirectLimitMs then
      assert Flatten([audio]) == audio + Flatten([audio][1..]);
      [audio]
    else
      assert CeilDiv(|audio|, ChunkMs) >= 1;
      AudioChunks(audio)
  }

  /** The results taken in submission order: every clip's text, or the position
      of the first clip whose request failed, since that is the first result
      whose `future.result()` raises. */
  function Collect<T>(transcribe: seq<T> -> Option<string>, clips: seq<seq<T>>): (r: Result<seq<string>, nat>)
    ensures r.Ok? <==> forall i :: 0 <= i < |clips| ==> transcribe(clips[i]).Some?
    ensures r.Ok? ==> |r.value| == |clips|
    ensures r.Ok? ==> forall i :: 0 <= i < |clips| ==> transcribe(clips[i]) == Some(r.value[i])
    ensures r.Err? ==> r.error < |clips| && transcribe(clips[r.error]).None?
    ensures r.Err? ==> forall j :: 0 <= j < r.error ==> transcribe(clips[j]).Some?
  {
    if clips == [] then Ok([])
    else
      match transcribe(clips[0])
      case None => Err(0)
      case Some(t) =>
        match Collect(transcribe, clips[1..])
        case Err(i) => Err(i + 1)
        case Ok(ts) => Ok([t] + ts)
  }

  /** What `speech_to_text` returns once the binaries are found: the texts of
      all clips joined by single spaces, or the first failed request. */
  function TranscriptOf<T>(audio: seq<T>, transcribe: seq<T> -> Option<string>): (r: Result<string, SttError>)
    ensures r.Ok? <==> forall i :: 0 <= i < |Clips(audio)| ==> transcribe(Clips(audio)[i]).Some?
    ensures r.Ok? ==> r.value == Join(Separator, Collect(transcribe, Clips(audio)).value)
    ensures r.Err? ==> r.error.RequestFailed? && r.error.clip < |Clips(audio)|
                       && transcribe(Clips(audio)[r.error.clip]).None?
                       && forall j :: 0 <= j < r.error.clip ==> transcribe(Clips(audio)[j]).Some?
  {
    match Collect(transcribe, Clips(audio))
    case Ok(texts) => Ok(Join(Separator, texts))
    case Err(i) => Err(RequestFailed(i))
  }

  /** `speech_to_text`: returns the transcript, and the clips sent to the
      transcription service in submission order. */
  method Transcribe<T>(bins: Binaries, audio: seq<T>, transcribe: seq<T> -> Option<string>)
    returns (r: Result<string, SttError>, sent: seq<seq<T>>)
    ensures !bins.ffmpegExecutable ==> r == Err(FfmpegNotFound) && sent == []
    ensures bins.ffmpegExecutable && !bins.ffprobeExecutable ==> r == Err(FfprobeNotFound) && sent == []
    ensures bins.ffmpegExecutable && bins.ffprobeExecutable ==>
              r == TranscriptOf(audio, transcribe) && sent == Clips(audio)
  {
    if !bins.ffmpegExecutable {
      return Err(FfmpegNotFound), [];
    }
    if !bins.ffprobeExecutable {
      return Err(FfprobeNotFound), [];
    }
    if |audio| <= DirectLimitMs {
      DirectTranscript(audio, transcribe);
      match transcribe(audio)
      case None =>
        return Err(RequestFailed(0)), [audio];
      case Some(text) =>
        return Ok(text), [audio];
    }
    var chunks := SplitAudio(audio);
    var results := TranscribeInOrder(chunks, transcribe);
    match results
    case Err(i) =>
      return Err(RequestFailed(i)), chunks;
    case Ok(texts) =>
      return Ok(Join(Separator, texts)), chunks;
  }

  /** The slicing loop: one clip per 120 s offset. */
  method SplitAudio<T>(audio: seq<T>) returns (chunks: seq<seq<T>>)
    ensures chunks == AudioChunks(audio)
  {
    chunks := [];
    var i: nat := 0;
    while i < |audio|
      invariant chunks + Slices(audio, i, ChunkMs, ChunkMs) == AudioChunks(audio)
      decreases |audio| - i
    {
      SlicesUnfold(audio, i, ChunkMs, ChunkMs);
      chunks := chunks + [Window(audio, i, ChunkMs)];
      i := i + ChunkMs;
    }
    SlicesPastEnd(audio, i, ChunkMs, ChunkMs);
  }

  /** The collecting loop: results are taken in submission order, whatever
      the order in which the requests complete, and the first one that raises
      ends the loop. */
  method TranscribeInOrder<T>(chunks: seq<seq<T>>, transcribe: seq<T> -> Option<string>)
    returns (r: Result<seq<string>, nat>)
    ensures r == Collect(transcribe, chunks)
  {
    var results := [];
    var k := 0;
    while k < |chunks|
      invariant 0 <= k <= |chunks|
      invariant |results| == k
      invariant forall j :: 0 <= j < k ==> transcribe(chunks[j]) == Some(results[j])
    {
      match transcribe(chunks[k])
      case None =>
        return Err(k);
      case Some(text) =>
        results := results + [text];
      k := k + 1;
    }
    var c := Collect(transcribe, chunks);
    assert c.value == results;
    return Ok(results);
  }

  /** A long recording is cut into `ceil(len / 120000)` non-empty slices of
      at most 120000 ms which, concatenated in order, give back the recording. */
  lemma ChunkPlan<T>(audio: seq<T>)
    ensures |AudioChunks(audio)| == CeilDiv(|audio|, ChunkMs)
    ensures forall k :: 0 <= k < |AudioChunks(audio)| ==> 0 < |AudioChunks(audio)[k]| <= ChunkMs
    ensures Flatten(AudioChunks(audio)) == audio
  {
    RangeLength(0, |audio|, ChunkMs);
    var starts := Range(0, |audio|, ChunkMs);
    forall k | 0 <= k < |AudioChunks(audio)| ensures 0 < |AudioChunks(audio)[k]| <= ChunkMs {
      assert starts[k] < |audio|;
    }
  }

  /** A recording of at most 60 s is one request, and the transcript is its
      text as returned, or the failure of that one request. */
  lemma DirectTranscript<T>(audio: seq<T>, transcribe: seq<T> -> Option<string>)
    requires |audio| <= DirectLimitMs
    ensures Clips(audio) == [audio]
    ensures TranscriptOf(audio, transcribe)
            == if transcribe(audio).Some? then Ok(transcribe(audio).value) else Err(RequestFailed(0))
  {
    assert [audio][1..] == [];
  }

  /** A recording longer than 60 s but at most 120 s is one slice, and the
      transcript is that slice's text with no separator. */
  lemma OneSliceNoSeparator<T>(audio: seq<T>, transcribe: seq<T> -> Option<string>)
    requires DirectLimitMs < |audio| <= ChunkMs
    ensures AudioChunks(audio) == [audio]
    ensures TranscriptOf(audio, transcribe)
            == if transcribe(audio).Some? then Ok(transcribe(audio).value) else Err(RequestFailed(0))
  {
    assert Range(ChunkMs, |audio|, ChunkMs) == [];
    assert Range(0, |audio|, ChunkMs) == [0];
    assert [0][1..] == [];
    assert Windows(audio, [0], ChunkMs) == [Window(audio, 0, ChunkMs)] + Windows(audio, [], ChunkMs);
    assert Window(audio, 0, ChunkMs) == audio[0..|audio|] == audio;
    assert [audio][1..] == [];
  }

  /** Each further slice adds a single space and its text at the end. */
  lemma TranscriptAppends(texts: seq<string>, next: string)
    requires texts != []
    ensures Join(Separator, texts + [next]) == Join(Separator, texts) + " " + next
  {
    JoinSnoc(Separator, texts, next);
  }
}
