# Meeting assistant core, modelled in Dafny

A model of the core of a meeting assistant. Users form groups, record
meetings and upload audio. A worker transcribes each recording, summarizes
it with a language model and writes the transcript and summary back into
the meeting. The model covers five parts:

- the transcript summarizer: the token-window chunker and the
  direct-or-map/reduce dispatch (`openai_summary.dfy`,
  `openai_summary_async.dfy`);
- the audio transcription plan: direct up to 60 s, otherwise 120 s slices
  joined with single spaces (`speech_to_text.dfy`);
- the group, meeting and audio-file HTTP handlers over the shared tables
  `groups`, `user_groups`, `meetings` and `audio_files` and the storage
  bucket. Each handler is modelled with its exact status codes
  (`store.dfy`, `groups_route.dfy`, `meetings_route.dfy`,
  `audio_files_route.dfy`);
- the background worker that writes transcript and summary, and its
  enqueueing endpoint (`audio_workers.dfy`);
- the chat assistant's tool registry (`tools.dfy`).

Helper modules: `wrappers.dfy` (Option, Result), `json.dfy` (JSON values),
`seqs.dfy` (Python's `range`, slicing windows, `join`), `tables.dfy`
(equality-filtered select/update/delete and ordering of rows).

Conventions used throughout:

- The tables are fields of one `Store.Database` object. Handlers that
  write are methods that modify it. Handlers that only read are functions
  of the table contents.
- A `select`, `update` or `delete` with equality filters acts on exactly
  the rows that match every filter, and returns those rows.
- Each handler returns `Ok(response)` or `Err(status)`. Two status
  mappings occur:
  - handlers that re-raise their own `HTTPException` keep its code and
    turn anything else into 400 (`Store.PassThrough`);
  - handlers whose single `except Exception` also catches their own
    `HTTPException` always answer 400 (`Store.CatchAll`).
- Collaborators the code calls but does not define are parameters:
  - the tokenizer (`encode`/`decode`);
  - the language model (`complete`);
  - the transcription service (`transcribe`);
  - the URL signer (`sign`);
  - the auth service's user list (`users`).
- Outcomes the handlers cannot choose are also parameters:
  - the database's answer to an insert (`InsertReply`, `LinkReply`);
  - whether a storage call succeeds (`uploadOk`, `storageOk`, `cleanupOk`);
    the upload call passes no `upsert` option, and the model takes storage
    to refuse a path that already holds an object (an assumption about the
    storage service, which is not part of this model);
  - whether the ffmpeg/ffprobe binaries are executable (`bins`).
- The identifier columns are keys: `Database.Valid()` states it, and every
  handler preserves it.

Facts about the code that the model keeps:

- no handler stores or derives a processing status for a meeting;
- deleting an audio file does not clear the linked meeting's transcript
  and summary;
- nothing enforces at most one recording per meeting;
- the meeting handlers neither read nor write a name.

## Model

| member | source | states |
|---|---|---|
| OpenAiSummary.ParseMeetingSummary | backend/controller/cede/openai_summary.py:13-22 | a summary validates iff `summary` is a string and each list field is absent or a list of strings; each list is empty when absent and otherwise holds exactly those strings, whatever else the object holds |
| OpenAiSummary.AsStrings | backend/controller/cede/openai_summary.py:15-22 | a JSON list is accepted iff every item is a string, and then yields those strings in order |
| OpenAiSummary.TokenWindows | backend/controller/cede/openai_summary.py:53-56 | there are ceil(len / (target - overlap)) token slices, none longer than the target |
| OpenAiSummary.Chunk | backend/controller/cede/openai_summary.py:47-58 | `_chunk` yields ceil(token count / step) chunks, the k-th being the decoded k-th token window; the count uses `_num_tokens` |
| OpenAiSummary.WindowCount | backend/controller/cede/openai_summary.py:53-57 | there are ceil(len / (target - overlap)) windows, and none for an empty token sequence |
| OpenAiSummary.WindowShape | backend/controller/cede/openai_summary.py:54-56 | window k starts at k·step below the token count, is `tokens[k·step : k·step + target]`, and is non-empty and at most `target` long |
| OpenAiSummary.WindowCoverage | backend/controller/cede/openai_summary.py:55-56 | every token index lies inside some window, at the offset that window's start implies |
| OpenAiSummary.LastWindowEnds | backend/controller/cede/openai_summary.py:55-56 | for a non-empty token sequence the last window runs to the end of the tokens |
| OpenAiSummary.WindowOverlap | backend/controller/cede/openai_summary.py:54-56 | a full window's last `overlap` tokens are the next window's first `overlap` tokens (the "chars" overlap is counted in tokens) |
| OpenAiSummaryAsync.CallStructured | workers/controller/cede/openai_summary_async.py:12-27 | a refusal fails with its message; an answer succeeds iff it validates as a MeetingSummary, and then yields that summary; otherwise it is invalid |
| OpenAiSummaryAsync.DefaultSummarizer | backend/controller/cede/openai_summary.py:27-32 | with the defaults 4096 and 200 (the worker's summarizer, workers/routes/audio_workers.py:13) chunks advance by 3300 tokens and a transcript below 3596 tokens is summarized directly |
| OpenAiSummaryAsync.Summarize | workers/controller/cede/openai_summary_async.py:29-46 | at least one call is issued, and a summary returned is the result of the last call issued |
| OpenAiSummaryAsync.Prompts | workers/controller/cede/openai_summary_async.py:29-44 | a short transcript is sent as the one prompt; otherwise the chunks are sent in order, followed by the reduce prompt over their results exactly when every chunk call succeeded |
| OpenAiSummaryAsync.ReducePrompt | workers/controller/cede/openai_summary_async.py:39-44 | the reduce prompt is the fixed prefix, then the partial summaries joined by blank lines, then the fixed suffix |
| OpenAiSummaryAsync.MapCalls | workers/controller/cede/openai_summary_async.py:34-36 | the map step succeeds iff every chunk call succeeds; the partials are the calls' results in chunk order; a failure is some call's error |
| OpenAiSummaryAsync.SummaryTexts | workers/controller/cede/openai_summary_async.py:39 | the partials' `summary` fields, one per partial, in order |
| OpenAiSummaryAsync.ShortPath | workers/controller/cede/openai_summary_async.py:29-31 | below `max_tokens - 500` tokens exactly one call is made, on the transcript verbatim, and its result is returned |
| OpenAiSummaryAsync.LongPath | workers/controller/cede/openai_summary_async.py:33-46 | when every chunk call succeeds, the long path makes len(chunks) + 1 calls, the chunk calls in chunk order and last the reduce prompt over the partials, and returns that call's result |
| OpenAiSummaryAsync.FailureIffSomeCallFails | workers/controller/cede/openai_summary_async.py:12-46 | the summary fails iff some issued call was refused or did not validate |
| OpenAiSummaryAsync.ReduceOne | workers/controller/cede/openai_summary_async.py:39-44 | with one partial, the reduce prompt is the fixed prefix, that partial's summary, and the fixed suffix |
| OpenAiSummaryAsync.ReduceAppend | workers/controller/cede/openai_summary_async.py:39-44 | each further partial summary is appended after a blank line, so the prompt keeps chunk order |
| SpeechToText.AudioChunks | backend/controller/marcel/speech_to_text.py:96-100 | ceil(len / 120000) slices which, concatenated in order, give back the recording |
| SpeechToText.Clips | backend/controller/marcel/speech_to_text.py:82-105 | the whole recording is the one clip up to 60 s, and its 120 s slices beyond; either way the clips concatenated give back the recording |
| SpeechToText.Collect | backend/controller/marcel/speech_to_text.py:110-124 | every clip's text in submission order iff every request succeeds; otherwise the position of the first failed request in submission order |
| SpeechToText.TranscriptOf | backend/controller/marcel/speech_to_text.py:82-128 | the transcript exists iff every request succeeds and is then the texts joined by single spaces; otherwise the error names the first failed clip |
| SpeechToText.Transcribe | backend/controller/marcel/speech_to_text.py:66-128 | a missing ffmpeg, then a missing ffprobe, fails before any request; otherwise the clips are sent in order and the outcome is `TranscriptOf`, a failed request included |
| SpeechToText.SplitAudio | backend/controller/marcel/speech_to_text.py:95-105 | the slicing loop produces exactly the slices at offsets 0, 120000, … |
| SpeechToText.TranscribeInOrder | backend/controller/marcel/speech_to_text.py:119-124 | the collecting loop yields the slice texts in submission order, or stops at the first request that failed |
| SpeechToText.ChunkPlan | backend/controller/marcel/speech_to_text.py:96-100 | there are ceil(len / 120000) slices, each non-empty and at most 120000 ms, and their concatenation is the recording |
| SpeechToText.DirectTranscript | backend/controller/marcel/speech_to_text.py:82-93 | a recording of at most 60 s is one request whose text, or failure, is the outcome |
| SpeechToText.OneSliceNoSeparator | backend/controller/marcel/speech_to_text.py:82-100 | a recording over 60 s and at most 120 s is one slice, and the transcript is its text with no separator |
| SpeechToText.TranscriptAppends | backend/controller/marcel/speech_to_text.py:127 | each further slice adds one space and its text at the end of the transcript |
| Tools.GetToolsByNames | backend/controller/tools/tools.py:75-77 | a definition is returned iff it is defined and its name is requested |
| Tools.ToolsByNamesInDefinitionOrder | backend/controller/tools/tools.py:75-77 | the definitions come out in definition order, each at most once, whatever the request order or repetition |
| Tools.GetFunctionToolsByNames | backend/controller/tools/tools.py:80-85 | at most one implementation per requested name, each one from the map; a single name gives its implementation if mapped and nothing otherwise |
| Tools.FunctionToolsAreMappedNames | backend/controller/tools/tools.py:80-85 | the result is the requested names that are in the map, in request order with repeats, each replaced by its implementation |
| Tools.FunctionToolsConcat | backend/controller/tools/tools.py:80-85 | the lookup distributes over concatenated requests, so results follow request order |
| Tools.FunctionToolsSkipUnknown | backend/controller/tools/tools.py:85 | an unknown name anywhere in the request adds nothing |
| Tools.FunctionToolsKeepRepeats | backend/controller/tools/tools.py:85 | a known name requested twice anywhere in the request yields its implementation twice, in place |
| Tools.CallTool | backend/controller/tools/tools.py:88-96 | dispatch succeeds iff the name is "get_weather" (the weather tool) or "web_search" (the web-search tool), passing the arguments through; otherwise the "Tool … not found" error |
| Tools.DefinitionsMatchMap | backend/controller/tools/tools.py:12-62 | the defined names and the map's keys are the same two names |
| Tools.DispatchGap | backend/controller/tools/tools.py:59-96 | the mapped meeting-summaries tool is rejected by `call_tool`, while "web_search" is dispatched though neither defined nor mapped |
| Store.MembershipRows | backend/routes/meetings_route.py:42-49 | the membership select returns exactly the user's rows for the group, and is empty iff the user is not a member |
| Store.AdminRows | backend/routes/groups_route.py:142-149 | the admin select returns exactly the user's admin rows for the group, and is empty iff the user is not an admin |
| Store.FindGroup | backend/routes/groups_route.py:120-129 | a row is found iff one has that id, and the row found has that id |
| GroupsRoute.CreateGroup | backend/routes/groups_route.py:37-68 | the group is inserted with `created_by` the caller, then the caller's admin row; a failed group insert (its 500 included) is 400 with nothing written; a failed admin row is 400 with the group kept |
| GroupsRoute.GroupIdsOf | backend/routes/groups_route.py:88 | an id is listed iff some membership row names that group |
| GroupsRoute.GetGroups | backend/routes/groups_route.py:70-112 | newest first; all groups without a user; for a user, exactly the groups with one of their membership rows |
| GroupsRoute.NoMembershipsNoGroups | backend/routes/groups_route.py:84-85 | a user without membership rows gets no groups |
| GroupsRoute.GetGroup | backend/routes/groups_route.py:114-133 | the row with that id, or 404 iff there is none |
| GroupsRoute.GetGroupFindsRow | backend/routes/groups_route.py:114-133 | every stored group is what `get_group` returns for its id |
| GroupsRoute.PatchGroup | backend/routes/groups_route.py:151-156 | only given fields change; id, creator and creation time never do |
| GroupsRoute.PatchGroups | backend/routes/groups_route.py:163-168 | the rows with that id are patched; every other row is unchanged |
| GroupsRoute.UpdateGroup | backend/routes/groups_route.py:135-177 | 403 without an admin row; with no field, the current row (or None) and no write; otherwise the patched rows, and the patched row or 404 |
| GroupsRoute.WithoutGroupLinks | backend/routes/groups_route.py:196-199 | exactly the memberships of the group are removed |
| GroupsRoute.WithoutGroup | backend/routes/groups_route.py:202-205 | exactly the rows with that id are removed |
| GroupsRoute.DeleteGroup | backend/routes/groups_route.py:179-214 | 403 without an admin row; otherwise memberships go, then the group, and a missing group is a 404 after the memberships are gone |
| GroupsRoute.RoleOrMember | backend/routes/groups_route.py:237 | a given non-empty role is kept; an absent or empty role becomes "member" |
| GroupsRoute.AddUserToGroup | backend/routes/groups_route.py:217-244 | without an admin row the 403 leaves as 400; otherwise one row is appended, even a duplicate |
| GroupsRoute.WithoutLink | backend/routes/groups_route.py:264-267 | every row of that user and group goes, and the user is no longer a member |
| GroupsRoute.RemoveUserFromGroup | backend/routes/groups_route.py:246-276 | removing oneself skips the admin check; otherwise 403 without an admin row; the rows go, and 404 iff there were none |
| GroupsRoute.InfoOf | backend/routes/groups_route.py:307-317 | a user's entry keeps id and email and has a name iff the metadata has one, and then it is the metadata's `name` value |
| GroupsRoute.UserIndex | backend/routes/groups_route.py:306-319 | the lookup has an entry for exactly the listed user ids |
| GroupsRoute.UserIndexLastWins | backend/routes/groups_route.py:306-319 | a user id's entry is built from the last user listed with that id |
| GroupsRoute.BuildUserIndex | backend/routes/groups_route.py:306-319 | the loop builds that lookup |
| GroupsRoute.JoinMembers | backend/routes/groups_route.py:322-333 | at most one member row per membership row |
| GroupsRoute.JoinMembersSound | backend/routes/groups_route.py:322-333 | every member row is built from a membership row whose user is known and that user's entry |
| GroupsRoute.JoinMembersComplete | backend/routes/groups_route.py:322-333 | every membership row whose user is known yields its member row; unknown users are the only ones dropped |
| GroupsRoute.JoinMembersExact | backend/routes/groups_route.py:322-333 | exactly one member row per membership row of a known user, in membership order, each combined with that user's entry |
| GroupsRoute.CombineMembers | backend/routes/groups_route.py:322-333 | the loop builds that join |
| GroupsRoute.GroupLinksByJoin | backend/routes/groups_route.py:285-290 | exactly the group's memberships, in ascending `joined_at` order |
| GroupsRoute.GetGroupMembers | backend/routes/groups_route.py:278-335 | the result is the group's memberships, by join time, joined with the listed users |
| GroupsRoute.JoinKeepsOrder | backend/routes/groups_route.py:285-333 | members come out in the order they joined |
| MeetingsRoute.CreateMeeting | backend/routes/meetings_route.py:35-70 | 403 for a non-member (any role is enough); 500 for an empty insert reply; 400 for a client error; otherwise the meeting is appended |
| MeetingsRoute.GetMeetings | backend/routes/meetings_route.py:72-98 | latest meeting first; all meetings, or exactly the group's |
| MeetingsRoute.GetMeeting | backend/routes/meetings_route.py:100-133 | 404 iff no such meeting, checked first; then 403 iff the user is not a member of its group; otherwise the row |
| MeetingsRoute.MemberSeesMeeting | backend/routes/meetings_route.py:107-127 | a member of the meeting's group gets exactly that row |
| MeetingsRoute.PatchMeeting | backend/routes/meetings_route.py:163-170 | each given field is written, even `""` or `{}`; other columns are unchanged; no field means no change |
| MeetingsRoute.PatchMeetings | backend/routes/meetings_route.py:176-181 | the rows with that id are patched; every other row is unchanged |
| MeetingsRoute.UpdateMeeting | backend/routes/meetings_route.py:135-192 | 404, then 403 without an admin row (a plain membership is not enough); with no field, the current row and no write; otherwise the patched row |
| MeetingsRoute.WithoutMeeting | backend/routes/meetings_route.py:222-226 | exactly the rows with that id are removed |
| MeetingsRoute.DeleteMeeting | backend/routes/meetings_route.py:194-237 | 404, then 403 without an admin row; otherwise the meeting is deleted and the success message returned |
| MeetingsRoute.NoMeetingAfterDelete | backend/routes/meetings_route.py:222-231 | after the delete no meeting with that id remains |
| AudioFilesRoute.CreateAudioFile | backend/routes/audio_files_route.py:37-65 | the record is appended as given with no meeting; an empty insert reply or a client error is 400 with nothing written |
| AudioFilesRoute.GetAudioFiles | backend/routes/audio_files_route.py:67-88 | exactly the group's records, newest first |
| AudioFilesRoute.GetAudioFile | backend/routes/audio_files_route.py:90-110 | the record, or 400 iff there is none (the handler's own 404 is caught) |
| AudioFilesRoute.PatchAudioFile | backend/routes/audio_files_route.py:128-133 | only the file name and meeting time can change, each only when given |
| AudioFilesRoute.PatchAudioFiles | backend/routes/audio_files_route.py:139-144 | the rows with that id are patched; every other row is unchanged |
| AudioFilesRoute.UpdateAudioFile | backend/routes/audio_files_route.py:112-153 | 400 for no record; with no field, the record and no write; otherwise the patched record |
| AudioFilesRoute.WithoutAudioFile | backend/routes/audio_files_route.py:182-186 | exactly the rows with that id are removed |
| AudioFilesRoute.DeleteAudioFile | backend/routes/audio_files_route.py:155-195 | 400 for no record; otherwise the object is removed if storage allows, and the record is deleted either way |
| AudioFilesRoute.NoAudioFileAfterDelete | backend/routes/audio_files_route.py:182-191 | after the delete no record with that id remains |
| AudioFilesRoute.UploadPath | backend/routes/audio_files_route.py:217-218 | the storage path lies under the group's `group_{id}_` prefix and ends with the original file name |
| AudioFilesRoute.UploadPathsDiffer | backend/routes/audio_files_route.py:217-218 | in one group and one second, different file names get different storage paths |
| AudioFilesRoute.UploadAudioFile | backend/routes/audio_files_route.py:198-252 | stores at `group_{group}_{stamp}_{name}` in "audio-files" with size the byte count; a failed upload is 400 with nothing written; the object is removed after an empty insert reply when storage allows; success appends a record with no meeting |
| AudioFilesRoute.GetDownloadUrl | backend/routes/audio_files_route.py:255-284 | `{"url": signedURL}` for a one-hour signature iff the record exists and the signer returned one; otherwise 400 |
| AudioWorkers.SummaryJson | workers/routes/audio_workers.py:50-54 | the stored summary has exactly the keys summary, action_items and participants |
| AudioWorkers.StringsRoundTrip | workers/routes/audio_workers.py:50-54 | a list of strings stored as JSON reads back as the same list |
| AudioWorkers.SummaryJsonRoundTrip | workers/routes/audio_workers.py:50-54 | the stored summary validates back into the summary it was built from |
| AudioWorkers.HasMeeting | workers/routes/audio_workers.py:48 | `if meeting_id:` passes for a present, non-empty meeting id |
| AudioWorkers.ProcessOutcome | workers/routes/audio_workers.py:15-78 | a write happens exactly for an existing record whose object exists and whose meeting id is set, after successful transcription and summary; it then carries that meeting id, the transcript and the stored form of the summary |
| AudioWorkers.WriteBack | workers/routes/audio_workers.py:57-66 | the rows with the meeting id get both columns; every other row is unchanged |
| AudioWorkers.NeverHalfWritten | workers/routes/audio_workers.py:57-66 | after processing each meeting is as it was or has both transcript and summary, and nothing else in it changed |
| AudioWorkers.ProcessAudioFile | workers/routes/audio_workers.py:15-78 | the meetings table is rewritten as `ProcessOutcome` says and nothing else changes; no failure escapes |
| AudioWorkers.UnlinkedRecordWritesNothing | workers/routes/audio_workers.py:34-48 | records as the routes create them carry no meeting, so processing writes nothing |
| AudioWorkers.TaskQueue.constructor | workers/routes/audio_workers.py:81 | a request's background task list starts empty |
| AudioWorkers.GetAudioFileBytes | workers/routes/audio_workers.py:80-105 | 202 with processing queued iff the record exists; otherwise 400 (its own 404 caught) and nothing queued |
| AudioWorkers.RunNext | workers/routes/audio_workers.py:97 | the oldest queued task is processed against the tables as they are by then |

## Left out

- Supabase client internals and the auth admin API: the tables are in-memory sequences under the equality-filter semantics above, and the `list_users` answer is the parameter `users` (its attribute probing is not modelled).
- OpenAI requests, tiktoken, pydub/ffmpeg decoding and WAV export are function parameters; the system prompt, model names and sampling temperatures are not modelled.
- Concurrency: the semaphore, `asyncio.gather`, `ThreadPoolExecutor` and `BackgroundTasks` are modelled sequentially, keeping their result order.
- The reassignment of pydub's global configuration (`which`, converter paths) is not modelled; only whether the two binaries are executable is.
- `datetime.now()` is the parameter `stamp`; generated ids and timestamps come from the insert reply.
- Log output (`print`, tracebacks) is not modelled.
- Configuration: the API-key checks in the constructors and `concurrency` are not modelled; the summarizer's `max_tokens` and overlap are fields of `Summarizer`.
- OpenAiSummaryAsync.WellConfigured: the overlap must be below the 3500-token target; with a step of zero or less Python's `range` raises or yields nothing, and that case is excluded instead of modelled.
- OpenAiSummaryAsync.CallStructured: any refusal fails, whereas the code lets an empty refusal string through (it is falsy) and returns the parsed value.
- AudioFilesRoute.UploadAudioFile: the uploaded file's name is a string; a missing `UploadFile.filename` (None, which the path would spell "None") is not modelled.
- SpeechToText.Transcribe: the audio is taken already decoded; a file that cannot be opened or that `AudioSegment.from_file` cannot decode (lines 75-79), and a failing WAV export, raise in the code and have no counterpart in the model. A failed transcription request is `transcribe` returning None.
- The worker's `speech_to_text_from_bytes` is not shown in the source; the worker's transcription is the parameter `transcribe`, None when it raises.
- weather_tool.py and supabase_tool.py are not part of this model; tool implementations are only named.
- Timestamps are integers and ISO-format conversion (`isoformat`) is not modelled; ordering ties are not fixed (results are stated sorted and as the right multiset of rows).
- Row order after a delete is stated up to the multiset of remaining rows and membership, not position.
- The `not result[0]` checks on a returned row and `ug.get("group_id")` truthiness are not modelled: a returned row is never empty here.
- Unreachable checks are not modelled: the 404 after a successful update in `update_meeting`/`update_audio_file`, the "not found during deletion" 404 in `delete_meeting`/`delete_audio_file`, and "Group ID is required" (a UUID is always truthy).
- GroupsRoute.UpdateGroup: returns `Ok(None)` when there is nothing to update and no such group; the framework's response validation of that value is not modelled.
- The worker's meetings update is assumed to succeed; its empty-result warning only logs.
- Database cascades (what deleting a group or meeting does to rows of other tables) are not shown in the source and not modelled.
- An insert whose generated id is already taken is treated as a client error (`Fault`).
- An empty reply to the `user_groups` insert in `add_user_to_group`/`create_group` is not distinguished from success.
- `get_all_tools_definitions` and `get_all_function_tools` are the constants `Tools.Definitions` and `Tools.ToolsMap`.
