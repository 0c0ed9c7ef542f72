/** The summary record and the token-window chunker of the transcript
    summarizer (backend/controller/cede/openai_summary.py). The tokenizer's
    `encode`/`decode` are parameters: the model works on token sequences. */
module OpenAiSummary {
  import opened Wrappers
  import opened Json
  import opened Seqs

  /** Defaults of the summarizer's constructor and of `_chunk`. */
  const DefaultMaxTokens: int := 4096
  const DefaultChunkOverlap: int := 200
  const DefaultTargetTokens: int := 3500

  /** The structured result the language model is asked to return. */
  datatype MeetingSummary = MeetingSummary(summary: string, actionItems: seq<string>, participants: seq<string>)

  /** A JSON list of strings, or None when some item is not a string. */
  function AsStrings(vs: seq<JsonValue>): (r: Option<seq<string>>)
    ensures r.Some? <==> forall i :: 0 <= i < |vs| ==> vs[i].JStr?
    ensures r.Some? ==> |r.value| == |vs| && forall i :: 0 <= i < |vs| ==> vs[i] == JStr(r.value[i])
  {
    if vs == [] then Some([])
    else if !vs[0].JStr? then None
    else
      match AsStrings(vs[1..])
      case None => None
      case Some(rest) => Some([vs[0].s] + rest)
  }

  /** A list-of-strings field that defaults to the empty list when absent. */
  function ListField(o: JsonObject, name: string): Option<seq<string>>
  {
    if name !in o then Some([])
    else if o[name].JArr? then AsStrings(o[name].items)
    else None
  }

  /** Validation of a JSON object against MeetingSummary: `summary` is a
      required string, the two lists default to empty; other keys are ignored. */
  function ParseMeetingSummary(o: JsonObject): (r: Option<MeetingSummary>)
    ensures r.Some? <==> "summary" in o && o["summary"].JStr?
                         && ListField(o, "action_items").Some? && ListField(o, "participants").Some?
    ensures r.Some? ==> o["summary"] == JStr(r.value.summary)
    ensures r.Some? && "action_items" !in o ==> r.value.actionItems == []
    ensures r.Some? && "action_items" in o ==>
              o["action_items"].JArr? && AsStrings(o["action_items"].items) == Some(r.value.actionItems)
    ensures r.Some? && "participants" !in o ==> r.value.participants == []
    ensures r.Some? && "participants" in o ==>
              o["participants"].JArr? && AsStrings(o["participants"].items) == Some(r.value.participants)
    ensures ("summary" in o && o["summary"].JStr? && "action_items" !in o && "participants" !in o)
              ==> r == Some(MeetingSummary(o["summary"].s, [], []))
  {
    if "summary" !in o || !o["summary"].JStr? then None
    else
      match (ListField(o, "action_items"), ListField(o, "participants"))
      case (Some(items), Some(people)) => Some(MeetingSummary(o["summary"].s, items, people))
      case _ => None
  }

  /** `_num_tokens`: the length of the encoding of the text. */
  function NumTokens(encode: string -> seq<int>, text: string): nat
  {
    |encode(text)|
  }

  /** The token windows of `_chunk`: `tokens[i:i + target]` for `i` in
      `range(0, len(tokens), target - overlap)`. */
  function TokenWindows(tokens: seq<int>, target: nat, overlap: int): (ws: seq<seq<int>>)
    requires overlap < target
    ensures |ws| == CeilDiv(|tokens|, target - overlap)
    ensures forall k :: 0 <= k < |ws| ==> |ws[k]| <= target
  {
    RangeLength(0, |tokens|, target - overlap);
    Slices(tokens, 0, target - overlap, target)
  }

  /** `_chunk`: each token window decoded back to text. */
  function Chunk(encode: string -> seq<int>, decode: seq<int> -> string, transcript: string,
                 target: nat, overlap: int): (chunks: seq<string>)
    requires overlap < target
    ensures |chunks| == |TokenWindows(encode(transcript), target, overlap)|
    ensures |chunks| == CeilDiv(NumTokens(encode, transcript), target - overlap)
    ensures forall k :: 0 <= k < |chunks| ==>
              chunks[k] == decode(TokenWindows(encode(transcript), target, overlap)[k])
  {
    var ws := TokenWindows(encode(transcript), target, overlap);
    WindowCount(encode(transcript), target, overlap);
    seq(|ws|, k requires 0 <= k < |ws| => decode(ws[k]))
  }

  /** There are `ceil(len(tokens) / step)` windows; none for no tokens. */
  lemma WindowCount(tokens: seq<int>, target: nat, overlap: int)
    requires overlap < target
    ensures |TokenWindows(tokens, target, overlap)| == CeilDiv(|tokens|, target - overlap)
    ensures tokens == [] ==> TokenWindows(tokens, target, overlap) == []
  {
    RangeLength(0, |tokens|, target - overlap);
  }

  /** Window k starts at k * step and is `tokens[k*step : k*step + target]`:
      non-empty (for a positive target) and at most `target` tokens long. */
  lemma WindowShape(tokens: seq<int>, target: nat, overlap: int, k: nat)
    requires 0 < target && overlap < target
    requires k < |TokenWindows(tokens, target, overlap)|
    ensures k * (target - overlap) < |tokens|
    ensures TokenWindows(tokens, target, overlap)[k] == Window(tokens, k * (target - overlap), target)
    ensures 0 < |TokenWindows(tokens, target, overlap)[k]| <= target
  {
    var step := target - overlap;
    var a := Range(0, |tokens|, step)[k];
    RangeAt(0, |tokens|, step, k);
    assert a == k * step && a < |tokens|;
    var w := Window(tokens, a, target);
    assert |w| == (if a + target < |tokens| then a + target else |tokens|) - a;
  }

  /** Every token lies in some window, at the offset its start implies. */
  lemma WindowCoverage(tokens: seq<int>, target: nat, overlap: int, j: nat) returns (k: nat)
    requires 0 <= overlap < target && j < |tokens|
    ensures k < |TokenWindows(tokens, target, overlap)|
    ensures k * (target - overlap) <= j < k * (target - overlap) + |TokenWindows(tokens, target, overlap)[k]|
    ensures TokenWindows(tokens, target, overlap)[k][j - k * (target - overlap)] == tokens[j]
  {
    var step := target - overlap;
    k := RangeCovers(0, |tokens|, step, j);
    RangeAt(0, |tokens|, step, k);
    var a := Range(0, |tokens|, step)[k];
    assert a == k * step;
    var w := TokenWindows(tokens, target, overlap)[k];
    assert w == Window(tokens, a, target);
    WindowWithin(tokens, a, target, j);
  }

  /** The last window ends at the end of the tokens. */
  lemma LastWindowEnds(tokens: seq<int>, target: nat, overlap: int)
    requires 0 <= overlap < target && tokens != []
    ensures |TokenWindows(tokens, target, overlap)| > 0
    ensures var ws := TokenWindows(tokens, target, overlap);
            var last := (|ws| - 1) * (target - overlap);
            last < |tokens| && ws[|ws| - 1] == tokens[last..]
  {
    var step := target - overlap;
    RangeLast(0, |tokens|, step);
    var ws := TokenWindows(tokens, target, overlap);
    var starts := Range(0, |tokens|, step);
    RangeAt(0, |tokens|, step, |ws| - 1);
    var a := starts[|ws| - 1];
    assert a + target >= |tokens|;
    assert ws[|ws| - 1] == tokens[a..];
  }

  /** A full window shares its last `overlap` tokens with the first tokens
      of the next window: the overlap is counted in tokens. */
  lemma WindowOverlap(tokens: seq<int>, target: nat, overlap: int, k: nat)
    requires 0 <= overlap < target
    requires k + 1 < |TokenWindows(tokens, target, overlap)|
    requires |TokenWindows(tokens, target, overlap)[k]| == target
    ensures |TokenWindows(tokens, target, overlap)[k + 1]| >= overlap
    ensures TokenWindows(tokens, target, overlap)[k][target - overlap..]
            == TokenWindows(tokens, target, overlap)[k + 1][..overlap]
  {
    var step := target - overlap;
    var starts := Range(0, |tokens|, step);
    RangeNext(0, |tokens|, step, k);
    var a := starts[k];
    var ws := TokenWindows(tokens, target, overlap);
    assert ws[k] == Window(tokens, a, target);
    assert ws[k + 1] == Window(tokens, a + step, target);
    assert a + target <= |tokens|;
    WindowsShare(tokens, a, step, target);
  }
}
