/** The background processing of an uploaded recording
    (workers/routes/audio_workers.py): download the object, transcribe it,
    summarize the transcript and, when the record names a meeting, write
    transcript and summary into that meeting in one update. Transcription
    of the downloaded bytes is the parameter `transcribe` (None when it
    raises); the summarizer is the asynchronous one. */
module AudioWorkers {
  import opened Wrappers
  import opened Tables
  import opened Json
  import opened Store
  import opened OpenAiSummary
  import opened OpenAiSummaryAsync

  /** A list of strings as JSON. */
  function StrValues(xs: seq<string>): (vs: seq<JsonValue>)
    ensures |vs| == |xs|
    ensures forall i :: 0 <= i < |xs| ==> vs[i] == JStr(xs[i])
  {
    seq(|xs|, i requires 0 <= i < |xs| => JStr(xs[i]))
  }

  /** `summary_json`: exactly the three fields of the summary. */
  function SummaryJson(m: MeetingSummary): (o: JsonObject)
    ensures o.Keys == {"summary", "action_items", "participants"}
  {
    map["summary" := JStr(m.summary),
        "action_items" := JArr(StrValues(m.actionItems)),
        "participants" := JArr(StrValues(m.participants))]
  }

  /** A JSON list of strings reads back as the same strings. */
  lemma StringsRoundTrip(xs: seq<string>)
    ensures AsStrings(StrValues(xs)) == Some(xs)
  {
    var vs := StrValues(xs);
    var r := AsStrings(vs);
    assert r.Some?;
    assert |r.value| == |xs|;
    forall i | 0 <= i < |xs| ensures r.value[i] == xs[i] {
      assert JStr(r.value[i]) == vs[i] == JStr(xs[i]);
    }
    assert r.value == xs;
  }

  /** The stored summary validates back into the summary it came from. */
  lemma SummaryJsonRoundTrip(m: MeetingSummary)
    ensures ParseMeetingSummary(SummaryJson(m)) == Some(m)
  {
    StringsRoundTrip(m.actionItems);
    StringsRoundTrip(m.participants);
    var o := SummaryJson(m);
    assert ListField(o, "action_items") == Some(m.actionItems);
    assert ListField(o, "participants") == Some(m.participants);
  }

  /** The one meeting update the background task makes. */
  datatype Write = Write(meetingId: Uuid, transcript: string, summary: JsonObject)

  /** Whether `if meeting_id:` lets the update through. */
  predicate HasMeeting(a: AudioFile)
  {
    a.meetingId.Some? && a.meetingId.value != ""
  }

  /** What `process_audio_file` writes, if anything: nothing for no record,
      no stored object, a failed transcription, a failed summary, or a
      record without a meeting. */
  function ProcessOutcome(files: seq<AudioFile>, objects: map<ObjectKey, seq<bv8>>, fid: Uuid,
                          transcribe: seq<bv8> -> Option<string>, s: Summarizer): (w: Option<Write>)
    requires WellConfigured(s)
    ensures FindAudioFile(files, fid).None? ==> w.None?
    ensures w.Some? ==>
              var a := FindAudioFile(files, fid).value;
              HasMeeting(a) && a.meetingId.value == w.value.meetingId
              && ObjectOf(a) in objects && transcribe(objects[ObjectOf(a)]) == Some(w.value.transcript)
              && Summarize(s, w.value.transcript).Ok?
              && w.value.summary == SummaryJson(Summarize(s, w.value.transcript).value)
              && ParseMeetingSummary(w.value.summary) == Some(Summarize(s, w.value.transcript).value)
    ensures FindAudioFile(files, fid).Some? ==>
              var a := FindAudioFile(files, fid).value;
              (HasMeeting(a) && ObjectOf(a) in objects && transcribe(objects[ObjectOf(a)]).Some?
               && Summarize(s, transcribe(objects[ObjectOf(a)]).value).Ok?)
              ==> var t := transcribe(objects[ObjectOf(a)]).value;
                  w == Some(Write(a.meetingId.value, t, SummaryJson(Summarize(s, t).value)))
  {
    match FindAudioFile(files, fid)
    case None => None
    case Some(a) =>
      if ObjectOf(a) !in objects then None
      else
        match transcribe(objects[ObjectOf(a)])
        case None => None
        case Some(t) =>
          match Summarize(s, t)
          case Err(_) => None
          case Ok(summary) =>
            SummaryJsonRoundTrip(summary);
            if HasMeeting(a) then Some(Write(a.meetingId.value, t, SummaryJson(summary))) else None
  }

  /** `update meetings set transcript, summary where id = meeting_id`: every
      matching row gets both columns, every other row is untouched. */
  function WriteBack(meetings: seq<Meeting>, w: Write): (r: seq<Meeting>)
    ensures |r| == |meetings|
    ensures forall i :: 0 <= i < |meetings| ==>
              r[i] == if meetings[i].id == w.meetingId
                      then meetings[i].(transcript := Some(w.transcript), summary := Some(w.summary))
                      else meetings[i]
  {
    UpdateWhere(meetings, (m: Meeting) => m.id == w.meetingId,
                (m: Meeting) => m.(transcript := Some(w.transcript), summary := Some(w.summary)))
  }

  /** The write keeps the meeting ids unique. */
  lemma WriteBackKeyed(meetings: seq<Meeting>, w: Write)
    requires Keyed(meetings, MeetingId)
    ensures Keyed(WriteBack(meetings, w), MeetingId)
  {
    KeyedPointwise(meetings, WriteBack(meetings, w), MeetingId);
  }

  /** `process_audio_file`: reads the record and its object, then makes at
      most the one update `ProcessOutcome` describes; no failure escapes. */
  method ProcessAudioFile(db: Database, fid: Uuid, transcribe: seq<bv8> -> Option<string>, s: Summarizer)
    requires db.Valid() && WellConfigured(s)
    modifies db
    ensures db.Valid()
    ensures db.groups == old(db.groups) && db.userGroups == old(db.userGroups)
    ensures db.audioFiles == old(db.audioFiles) && db.objects == old(db.objects)
    ensures db.meetings == match ProcessOutcome(old(db.audioFiles), old(db.objects), fid, transcribe, s)
                           case None => old(db.meetings)
                           case Some(w) => WriteBack(old(db.meetings), w)
  {
    var found := FindAudioFile(db.audioFiles, fid);
    if found.None? {
      return;
    }
    var a := found.value;
    var key := ObjectOf(a);
    if key !in db.objects {
      return;
    }
    var transcript := transcribe(db.objects[key]);
    if transcript.None? {
      return;
    }
    var summary := Summarize(s, transcript.value);
    if summary.Err? {
      return;
    }
    if HasMeeting(a) {
      var w := Write(a.meetingId.value, transcript.value, SummaryJson(summary.value));
      WriteBackKeyed(db.meetings, w);
      db.meetings := WriteBack(db.meetings, w);
    }
  }

  /** A meeting is never half-written: after processing each row either is as
      it was or carries both the transcript and the summary, and nothing
      else in it changed. */
  lemma NeverHalfWritten(meetings: seq<Meeting>, w: Write, i: nat)
    requires i < |meetings|
    ensures var m := WriteBack(meetings, w)[i];
            m == meetings[i]
            || (m.transcript == Some(w.transcript) && m.summary == Some(w.summary)
                && m.(transcript := meetings[i].transcript, summary := meetings[i].summary) == meetings[i])
  {
  }

  /** A record created by the routes carries no meeting, so processing it
      writes nothing. */
  lemma UnlinkedRecordWritesNothing(files: seq<AudioFile>, objects: map<ObjectKey, seq<bv8>>, fid: Uuid,
                                    transcribe: seq<bv8> -> Option<string>, s: Summarizer)
    requires WellConfigured(s)
    requires forall a :: a in files ==> a.meetingId.None?
    ensures ProcessOutcome(files, objects, fid, transcribe, s).None?
  {
  }

  /** The tasks `BackgroundTasks` will run after the responses, in order. */
  class TaskQueue {
    var pending: seq<Uuid>

    constructor ()
      ensures pending == []
    {
      pending := [];
    }
  }

  /** `get_audio_file_bytes`: 202 with the processing task queued when the record
      exists; otherwise 400 (its own 404 is caught) and nothing queued. */
  method GetAudioFileBytes(db: Database, queue: TaskQueue, fid: Uuid) returns (status: int)
    modifies queue
    ensures FindAudioFile(db.audioFiles, fid).None? ==> status == 400 && queue.pending == old(queue.pending)
    ensures FindAudioFile(db.audioFiles, fid).Some? ==> status == 202 && queue.pending == old(queue.pending) + [fid]
  {
    if FindAudioFile(db.audioFiles, fid).None? {
      return CatchAll(Http(404));
    }
    queue.pending := queue.pending + [fid];
    return 202;
  }

  /** Runs the oldest queued task against the database as it is by then. */
  method RunNext(db: Database, queue: TaskQueue, transcribe: seq<bv8> -> Option<string>, s: Summarizer)
    requires db.Valid() && WellConfigured(s)
    modifies db, queue
    ensures db.Valid()
    ensures old(queue.pending) == [] ==> queue.pending == [] && db.meetings == old(db.meetings)
    ensures old(queue.pending) != [] ==>
              queue.pending == old(queue.pending)[1..]
              && db.meetings == match ProcessOutcome(old(db.audioFiles), old(db.objects), old(queue.pending)[0], transcribe, s)
                                case None => old(db.meetings)
                                case Some(w) => WriteBack(old(db.meetings), w)
    ensures db.groups == old(db.groups) && db.userGroups == old(db.userGroups)
    ensures db.audioFiles == old(db.audioFiles) && db.objects == old(db.objects)
  {
    if queue.pending == [] {
      return;
    }
    var fid := queue.pending[0];
    queue.pending := queue.pending[1..];
    ProcessAudioFile(db, fid, transcribe, s);
  }
}
