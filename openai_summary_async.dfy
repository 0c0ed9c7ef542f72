/** The asynchronous summarizer (workers/controller/cede/openai_summary_async.py):
    one structured call for a short transcript, otherwise one call per token
    chunk followed by a reduce call over the partial summaries. The language
    model is the parameter `complete`; the semaphore and `asyncio.gather` are
    modelled sequentially, keeping gather's result order. */
module OpenAiSummaryAsync {
  import opened Wrappers
  import opened Seqs
  import opened OpenAiSummary
  import Json

  /** What one structured-output request returns: a refusal, or the model's
      JSON answer, which is then validated against MeetingSummary. */
  datatype Completion = Answer(output: Json.JsonObject) | Refusal(message: string)

  /** Why a summary could not be produced. */
  datatype SummaryError =
    | Refused(message: string)  // the RuntimeError raised on a refusal
    | Invalid                   // the answer does not validate as a MeetingSummary

  /** The summarizer's configuration and collaborators. */
  datatype Summarizer = Summarizer(
    encode: string -> seq<int>,
    decode: seq<int> -> string,
    complete: string -> Completion,
    maxTokens: int,
    chunkOverlap: int)

  /** The tokens kept free below `max_tokens` for the direct call. */
  const ReserveTokens: int := 500
  const ReducePrefix: string := "These are partial summaries:\n"
  const ReduceSuffix: string := "\n\nMerge them into one cohesive summary, deduplicating action_items and participants."
  const PartialSeparator: string := "\n\n"

  /** `_call_structured_async`: a refusal raises, an answer is validated. */
  function CallStructured(complete: string -> Completion, prompt: string): (r: Result<MeetingSummary, SummaryError>)
    ensures complete(prompt).Refusal? ==> r == Err(Refused(complete(prompt).message))
    ensures complete(prompt).Answer? ==> (r.Ok? <==> ParseMeetingSummary(complete(prompt).output).Some?)
    ensures complete(prompt).Answer? && r.Ok? ==> ParseMeetingSummary(complete(prompt).output) == Some(r.value)
    ensures complete(prompt).Answer? && r.Err? ==> r.error == Invalid
  {
    match complete(prompt)
    case Refusal(m) => Err(Refused(m))
    case Answer(o) =>
      match ParseMeetingSummary(o)
      case None => Err(Invalid)
      case Some(m) => Ok(m)
  }

  /** The map step: every chunk summarized; the partials keep chunk order.
      It fails exactly when some call fails, with that call's error. */
  function MapCalls(complete: string -> Completion, prompts: seq<string>): (r: Result<seq<MeetingSummary>, SummaryError>)
    ensures r.Ok? <==> forall i :: 0 <= i < |prompts| ==> CallStructured(complete, prompts[i]).Ok?
    ensures r.Ok? ==> |r.value| == |prompts|
    ensures r.Ok? ==> forall i :: 0 <= i < |prompts| ==> CallStructured(complete, prompts[i]) == Ok(r.value[i])
    ensures r.Err? ==> exists i :: 0 <= i < |prompts| && CallStructured(complete, prompts[i]) == Err(r.error)
  {
    if prompts == [] then Ok([])
    else
      match CallStructured(complete, prompts[0])
      case Err(e) => Err(e)
      case Ok(m) =>
        match MapCalls(complete, prompts[1..])
        case Err(e) => Err(e)
        case Ok(ms) => Ok([m] + ms)
  }

  /** The `summary` fields of the partial results, in order. */
  function SummaryTexts(partials: seq<MeetingSummary>): (texts: seq<string>)
    ensures |texts| == |partials|
    ensures forall i :: 0 <= i < |partials| ==> texts[i] == partials[i].summary
  {
    if partials == [] then [] else [partials[0].summary] + SummaryTexts(partials[1..])
  }

  /** The reduce prompt: the fixed prefix, the partial summaries joined by a
      blank line, and the fixed suffix. */
  function ReducePrompt(partials: seq<MeetingSummary>): (p: string)
    ensures |p| == |ReducePrefix| + |Join(PartialSeparator, SummaryTexts(partials))| + |ReduceSuffix|
    ensures p[..|ReducePrefix|] == ReducePrefix
    ensures p[|p| - |ReduceSuffix|..] == ReduceSuffix
    ensures p[|ReducePrefix|..|p| - |ReduceSuffix|] == Join(PartialSeparator, SummaryTexts(partials))
  {
    ReducePrefix + Join(PartialSeparator, SummaryTexts(partials)) + ReduceSuffix
  }

  /** The summarizer with the constructor's defaults, `max_tokens = 4096` and
      `chunk_overlap_chars = 200`: its chunks advance by 3300 tokens, and a
      transcript is summarized directly below 3596 tokens. */
  function DefaultSummarizer(encode: string -> seq<int>, decode: seq<int> -> string,
                             complete: string -> Completion): (s: Summarizer)
    ensures WellConfigured(s) && DefaultTargetTokens - s.chunkOverlap == 3300
    ensures forall t :: IsShort(s, t) <==> NumTokens(s.encode, t) < 3596
    ensures s.encode == encode && s.decode == decode && s.complete == complete
  {
    Summarizer(encode, decode, complete, DefaultMaxTokens, DefaultChunkOverlap)
  }

  /** The chunk step is positive: the overlap is below the target window size. */
  predicate WellConfigured(s: Summarizer)
  {
    s.chunkOverlap < DefaultTargetTokens
  }

  /** Whether the transcript is summarized by one direct call. */
  predicate IsShort(s: Summarizer, transcript: string)
  {
    NumTokens(s.encode, transcript) < s.maxTokens - ReserveTokens
  }

  /** The transcript chunks of the map step. */
  function Chunks(s: Summarizer, transcript: string): seq<string>
    requires WellConfigured(s)
  {
    Chunk(s.encode, s.decode, transcript, DefaultTargetTokens, s.chunkOverlap)
  }

  /** `summarize_async`: the summary is the result of the last call issued. */
  function Summarize(s: Summarizer, transcript: string): (r: Result<MeetingSummary, SummaryError>)
    requires WellConfigured(s)
    ensures var calls := Prompts(s, transcript);
            calls != [] && (r.Ok? ==> r == CallStructured(s.complete, calls[|calls| - 1]))
  {
    if IsShort(s, transcript) then CallStructured(s.complete, transcript)
    else
      match MapCalls(s.complete, Chunks(s, transcript))
      case Err(e) => Err(e)
      case Ok(partials) => CallStructured(s.complete, ReducePrompt(partials))
  }

  /** The prompts sent to the model, in the order the calls are issued:
      the reduce call is made only when every chunk call succeeded. */
  function Prompts(s: Summarizer, transcript: string): (calls: seq<string>)
    requires WellConfigured(s)
    ensures IsShort(s, transcript) ==> calls == [transcript]
    ensures !IsShort(s, transcript) ==>
              var chunks := Chunks(s, transcript);
              chunks <= calls && |calls| <= |chunks| + 1
    ensures !IsShort(s, transcript) && MapCalls(s.complete, Chunks(s, transcript)).Ok? ==>
              calls == Chunks(s, transcript) + [ReducePrompt(MapCalls(s.complete, Chunks(s, transcript)).value)]
    ensures !IsShort(s, transcript) && MapCalls(s.complete, Chunks(s, transcript)).Err? ==>
              calls == Chunks(s, transcript)
  {
    if IsShort(s, transcript) then [transcript]
    else
      var chunks := Chunks(s, transcript);
      match MapCalls(s.complete, chunks)
      case Err(_) => chunks
      case Ok(partials) => chunks + [ReducePrompt(partials)]
  }

  /** A short transcript is summarized by exactly one call, on the transcript itself. */
  lemma ShortPath(s: Summarizer, transcript: string)
    requires WellConfigured(s) && IsShort(s, transcript)
    ensures Prompts(s, transcript) == [transcript]
    ensures Summarize(s, transcript) == CallStructured(s.complete, transcript)
  {
  }

  /** A successful long path makes one call per chunk, in chunk order, then
      the reduce call; its result is the reduce call's result. */
  lemma LongPath(s: Summarizer, transcript: string)
    requires WellConfigured(s) && !IsShort(s, transcript)
    requires MapCalls(s.complete, Chunks(s, transcript)).Ok?
    ensures var calls := Prompts(s, transcript);
            var chunks := Chunks(s, transcript);
            |calls| == |chunks| + 1 && calls[..|chunks|] == chunks
            && calls[|chunks|] == ReducePrompt(MapCalls(s.complete, chunks).value)
            && Summarize(s, transcript) == CallStructured(s.complete, calls[|chunks|])
  {
    var chunks := Chunks(s, transcript);
    var partials := MapCalls(s.complete, chunks).value;
    assert (chunks + [ReducePrompt(partials)])[..|chunks|] == chunks;
  }

  /** A summary is returned only if no call was refused or invalid; one failed
      call, wherever it is, makes the whole summary fail. */
  lemma FailureIffSomeCallFails(s: Summarizer, transcript: string)
    requires WellConfigured(s)
    ensures var calls := Prompts(s, transcript);
            Summarize(s, transcript).Err?
            <==> exists i :: 0 <= i < |calls| && CallStructured(s.complete, calls[i]).Err?
  {
    var calls := Prompts(s, transcript);
    if !IsShort(s, transcript) {
      var chunks := Chunks(s, transcript);
      match MapCalls(s.complete, chunks)
      case Err(_) =>
      case Ok(partials) =>
        var last := |chunks|;
        assert calls[last] == ReducePrompt(partials);
        if Summarize(s, transcript).Err? {
          assert CallStructured(s.complete, calls[last]).Err?;
        } else {
          forall i | 0 <= i < |calls| ensures CallStructured(s.complete, calls[i]).Ok? {
            if i < last {
              assert calls[i] == chunks[i];
            }
          }
        }
    } else {
      assert calls[0] == transcript;
    }
  }

  /** The reduce prompt lists one partial summary alone between prefix and suffix. */
  lemma ReduceOne(p: MeetingSummary)
    ensures ReducePrompt([p]) == ReducePrefix + p.summary + ReduceSuffix
  {
    assert SummaryTexts([p]) == [p.summary];
  }

  /** A further partial summary is appended after a blank line, keeping chunk order. */
  lemma {:induction false} ReduceAppend(partials: seq<MeetingSummary>, p: MeetingSummary)
    requires partials != []
    ensures ReducePrompt(partials + [p])
            == ReducePrefix + Join(PartialSeparator, SummaryTexts(partials)) + PartialSeparator + p.summary + ReduceSuffix
  {
    assert SummaryTexts(partials + [p]) == SummaryTexts(partials) + [p.summary];
    JoinSnoc(PartialSeparator, SummaryTexts(partials), p.summary);
  }
}
