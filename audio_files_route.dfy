/** The audio-file handlers (backend/routes/audio_files_route.py). None of
    them re-raises HTTPException: each one's single `except Exception` also
    catches the 404 or 500 it raised itself, so every failure leaves as 400.
    Storage calls that may fail are given their outcome as a parameter. */
module AudioFilesRoute {
  import opened Wrappers
  import opened Tables
  import opened Store
  import Json

  const AudioBucket: string := "audio-files"
  const UrlExpirySeconds: int := 3600
  const AudioDeletedMessage: string := "Audio file deleted successfully"

  function FileCreatedAt(a: AudioFile): int { a.createdAt }

  /** The insert produced a row under an id no audio file has yet. */
  predicate AudioInserted(files: seq<AudioFile>, insert: InsertReply)
  {
    insert.Created? && FindAudioFile(files, insert.id).None?
  }

  /** `create_audio_file`: the record as given, with no meeting attached;
      an empty insert reply or a client error is a 400. */
  method CreateAudioFile(db: Database, groupId: Uuid, bucketName: string, path: string,
                         originalFilename: Option<string>, mimetype: Option<string>, size: Option<int>,
                         meetingDatetime: Option<string>, insert: InsertReply)
    returns (r: Result<AudioFile, int>)
    requires db.Valid()
    modifies db
    ensures db.Valid()
    ensures db.groups == old(db.groups) && db.userGroups == old(db.userGroups)
    ensures db.meetings == old(db.meetings) && db.objects == old(db.objects)
    ensures !AudioInserted(old(db.audioFiles), insert) ==> r == Err(400) && db.audioFiles == old(db.audioFiles)
    ensures AudioInserted(old(db.audioFiles), insert) ==>
              var a := AudioFile(insert.id, groupId, bucketName, path, originalFilename, mimetype, size,
                                 meetingDatetime, None, insert.createdAt);
              r == Ok(a) && db.audioFiles == old(db.audioFiles) + [a]
    ensures r.Ok? ==> r.value.meetingId.None?
  {
    if !AudioInserted(db.audioFiles, insert) {
      return Err(CatchAll(if insert.NoRow? then Http(500) else Other));
    }
    var a := AudioFile(insert.id, groupId, bucketName, path, originalFilename, mimetype, size,
                       meetingDatetime, None, insert.createdAt);
    KeyedAppend(db.audioFiles, AudioFileId, a);
    db.audioFiles := db.audioFiles + [a];
    return Ok(a);
  }

  /** `get_audio_files`: the group's records, newest first. */
  function GetAudioFiles(files: seq<AudioFile>, groupId: Uuid): (r: seq<AudioFile>)
    ensures SortedDescBy(r, FileCreatedAt)
    ensures forall a :: multiset(r)[a] == if a.groupId == groupId then multiset(files)[a] else 0
  {
    SortDescBy(Filter(files, (a: AudioFile) => a.groupId == groupId), FileCreatedAt)
  }

  /** `get_audio_file`: the record, or 400 (its own 404 is caught). */
  function GetAudioFile(files: seq<AudioFile>, fid: Uuid): (r: Result<AudioFile, int>)
    ensures r.Ok? ==> r.value in files && r.value.id == fid
    ensures r.Err? <==> FindAudioFile(files, fid).None?
    ensures r.Err? ==> r.error == 400
  {
    match FindAudioFile(files, fid)
    case None => Err(CatchAll(Http(404)))
    case Some(a) => Ok(a)
  }

  /** The `update_data` of `update_audio_file` applied to a record: only the
      file name and the meeting time can change, each only when given. */
  function PatchAudioFile(a: AudioFile, originalFilename: Option<string>, meetingDatetime: Option<string>): (r: AudioFile)
    ensures r.(originalFilename := a.originalFilename, meetingDatetime := a.meetingDatetime) == a
    ensures r.originalFilename == if originalFilename.Some? then originalFilename else a.originalFilename
    ensures r.meetingDatetime == if meetingDatetime.Some? then meetingDatetime else a.meetingDatetime
  {
    var a1 := if originalFilename.Some? then a.(originalFilename := originalFilename) else a;
    if meetingDatetime.Some? then a1.(meetingDatetime := meetingDatetime) else a1
  }

  /** `update audio_files set update_data where id = fid`. */
  function PatchAudioFiles(files: seq<AudioFile>, fid: Uuid, originalFilename: Option<string>,
                           meetingDatetime: Option<string>): (r: seq<AudioFile>)
    ensures |r| == |files|
    ensures forall i :: 0 <= i < |files| ==>
              r[i] == if files[i].id == fid then PatchAudioFile(files[i], originalFilename, meetingDatetime) else files[i]
  {
    UpdateWhere(files, (a: AudioFile) => a.id == fid,
                (a: AudioFile) => PatchAudioFile(a, originalFilename, meetingDatetime))
  }

  /** Patching keeps the audio-file ids unique. */
  lemma PatchAudioFilesKeyed(files: seq<AudioFile>, fid: Uuid, originalFilename: Option<string>,
                             meetingDatetime: Option<string>)
    requires Keyed(files, AudioFileId)
    ensures Keyed(PatchAudioFiles(files, fid, originalFilename, meetingDatetime), AudioFileId)
  {
    KeyedPointwise(files, PatchAudioFiles(files, fid, originalFilename, meetingDatetime), AudioFileId);
  }

  /** `update_audio_file`: 400 for no record; with no field given, the
      record and no write. */
  method UpdateAudioFile(db: Database, fid: Uuid, originalFilename: Option<string>, meetingDatetime: Option<string>)
    returns (r: Result<AudioFile, int>)
    requires db.Valid()
    modifies db
    ensures db.Valid()
    ensures db.groups == old(db.groups) && db.userGroups == old(db.userGroups)
    ensures db.meetings == old(db.meetings) && db.objects == old(db.objects)
    ensures FindAudioFile(old(db.audioFiles), fid).None? ==> r == Err(400) && db.audioFiles == old(db.audioFiles)
    ensures FindAudioFile(old(db.audioFiles), fid).Some? && originalFilename.None? && meetingDatetime.None? ==>
              r == Ok(FindAudioFile(old(db.audioFiles), fid).value) && db.audioFiles == old(db.audioFiles)
    ensures FindAudioFile(old(db.audioFiles), fid).Some? && (originalFilename.Some? || meetingDatetime.Some?) ==>
              r == Ok(PatchAudioFile(FindAudioFile(old(db.audioFiles), fid).value, originalFilename, meetingDatetime))
              && db.audioFiles == PatchAudioFiles(old(db.audioFiles), fid, originalFilename, meetingDatetime)
  {
    var current := FindAudioFile(db.audioFiles, fid);
    if current.None? {
      return Err(CatchAll(Http(404)));
    }
    if originalFilename.None? && meetingDatetime.None? {
      return Ok(current.value);
    }
    PatchAudioFilesKeyed(db.audioFiles, fid, originalFilename, meetingDatetime);
    db.audioFiles := PatchAudioFiles(db.audioFiles, fid, originalFilename, meetingDatetime);
    return Ok(PatchAudioFile(current.value, originalFilename, meetingDatetime));
  }

  /** `delete audio_files where id = fid`. */
  function WithoutAudioFile(files: seq<AudioFile>, fid: Uuid): (r: seq<AudioFile>)
    ensures forall a :: a in r <==> a in files && a.id != fid
    ensures forall a :: multiset(r)[a] == if a.id == fid then 0 else multiset(files)[a]
  {
    Filter(files, (a: AudioFile) => a.id != fid)
  }

  /** Deleting keeps the audio-file ids unique. */
  lemma WithoutAudioFileKeyed(files: seq<AudioFile>, fid: Uuid)
    requires Keyed(files, AudioFileId)
    ensures Keyed(WithoutAudioFile(files, fid), AudioFileId)
  {
    KeyedSubset(files, WithoutAudioFile(files, fid), AudioFileId);
  }

  /** `delete_audio_file`: 400 for no record; otherwise the object is removed
      when storage allows (`storageOk`) and the record is deleted either way. */
  method DeleteAudioFile(db: Database, fid: Uuid, storageOk: bool) returns (r: Result<string, int>)
    requires db.Valid()
    modifies db
    ensures db.Valid()
    ensures db.groups == old(db.groups) && db.userGroups == old(db.userGroups) && db.meetings == old(db.meetings)
    ensures FindAudioFile(old(db.audioFiles), fid).None? ==>
              r == Err(400) && db.audioFiles == old(db.audioFiles) && db.objects == old(db.objects)
    ensures FindAudioFile(old(db.audioFiles), fid).Some? ==>
              r == Ok(AudioDeletedMessage)
              && db.audioFiles == WithoutAudioFile(old(db.audioFiles), fid)
              && db.objects == if storageOk then old(db.objects) - {ObjectOf(FindAudioFile(old(db.audioFiles), fid).value)}
                               else old(db.objects)
  {
    var current := FindAudioFile(db.audioFiles, fid);
    if current.None? {
      return Err(CatchAll(Http(404)));
    }
    var objects := if storageOk then db.objects - {ObjectOf(current.value)} else db.objects;
    var files := WithoutAudioFile(db.audioFiles, fid);
    WithoutAudioFileKeyed(db.audioFiles, fid);
    db.objects, db.audioFiles := objects, files;
    return Ok(AudioDeletedMessage);
  }

  /** After the delete no record with that id remains. */
  lemma NoAudioFileAfterDelete(files: seq<AudioFile>, fid: Uuid)
    ensures FindAudioFile(WithoutAudioFile(files, fid), fid).None?
  {
    var r := WithoutAudioFile(files, fid);
    assert forall a :: a in r ==> a.id != fid;
  }

  /** The storage path of an upload: `group_{group_id}_{timestamp}_{filename}`,
      under the group's own prefix and ending in the file name. */
  function UploadPath(groupId: string, stamp: string, filename: string): (path: string)
    ensures "group_" + groupId + "_" <= path
    ensures |filename| <= |path| && path[|path| - |filename|..] == filename
  {
    "group_" + groupId + "_" + stamp + "_" + filename
  }

  /** Within one group and one second, different file names get different paths. */
  lemma UploadPathsDiffer(groupId: string, stamp: string, f1: string, f2: string)
    requires f1 != f2
    ensures UploadPath(groupId, stamp, f1) != UploadPath(groupId, stamp, f2)
  {
    var prefix := "group_" + groupId + "_" + stamp + "_";
    assert UploadPath(groupId, stamp, f1) == prefix + f1;
    assert UploadPath(groupId, stamp, f2) == prefix + f2;
    if |f1| == |f2| {
      assert (prefix + f1)[|prefix|..] == f1;
      assert (prefix + f2)[|prefix|..] == f2;
    }
  }

  /** `upload_audio_file`. The object is stored first; an existing object
      at the path or a failed upload (`uploadOk`) is a 400 with nothing
      written. After an empty insert reply the object is removed when
      storage allows (`cleanupOk`); after a client error it stays. The
      timestamp is the formatted current time. */
  method UploadAudioFile(db: Database, content: seq<bv8>, filename: string, mimetype: Option<string>,
                         groupId: string, meetingDatetime: Option<string>, stamp: string,
                         uploadOk: bool, insert: InsertReply, cleanupOk: bool)
    returns (r: Result<AudioFile, int>)
    requires db.Valid()
    modifies db
    ensures db.Valid()
    ensures db.groups == old(db.groups) && db.userGroups == old(db.userGroups) && db.meetings == old(db.meetings)
    ensures var key := ObjectKey(AudioBucket, UploadPath(groupId, stamp, filename));
            && (key in old(db.objects) || !uploadOk ==>
                  r == Err(400) && db.objects == old(db.objects) && db.audioFiles == old(db.audioFiles))
            && (key !in old(db.objects) && uploadOk && insert.NoRow? ==>
                  r == Err(400) && db.audioFiles == old(db.audioFiles)
                  && db.objects == if cleanupOk then old(db.objects) else old(db.objects)[key := content])
            && (key !in old(db.objects) && uploadOk && !insert.NoRow? && !AudioInserted(old(db.audioFiles), insert) ==>
                  r == Err(400) && db.audioFiles == old(db.audioFiles) && db.objects == old(db.objects)[key := content])
            && (key !in old(db.objects) && uploadOk && AudioInserted(old(db.audioFiles), insert) ==>
                  var a := AudioFile(insert.id, groupId, AudioBucket, key.path, Some(filename), mimetype,
                                     Some(|content|), meetingDatetime, None, insert.createdAt);
                  r == Ok(a) && db.audioFiles == old(db.audioFiles) + [a]
                  && db.objects == old(db.objects)[key := content])
    ensures r.Ok? ==> r.value.meetingId.None? && db.objects[ObjectOf(r.value)] == content
  {
    var path := UploadPath(groupId, stamp, filename);
    var key := ObjectKey(AudioBucket, path);
    if key in db.objects || !uploadOk {
      return Err(CatchAll(Other));
    }
    db.objects := db.objects[key := content];
    if insert.NoRow? {
      if cleanupOk {
        db.objects := db.objects - {key};
      }
      return Err(CatchAll(Http(500)));
    }
    if !AudioInserted(db.audioFiles, insert) {
      return Err(CatchAll(Other));
    }
    var a := AudioFile(insert.id, groupId, AudioBucket, path, Some(filename), mimetype,
                       Some(|content|), meetingDatetime, None, insert.createdAt);
    KeyedAppend(db.audioFiles, AudioFileId, a);
    db.audioFiles := db.audioFiles + [a];
    return Ok(a);
  }

  /** `get_download_url`: a URL signed for one hour by `sign`, or 400 for no
      record and for a signer answer without `signedURL`. */
  function GetDownloadUrl(files: seq<AudioFile>, fid: Uuid, sign: (ObjectKey, int) -> Json.JsonObject)
    : (r: Result<Json.JsonObject, int>)
    ensures r.Ok? <==> FindAudioFile(files, fid).Some?
                       && "signedURL" in sign(ObjectOf(FindAudioFile(files, fid).value), UrlExpirySeconds)
    ensures r.Ok? ==>
              r.value == map["url" := sign(ObjectOf(FindAudioFile(files, fid).value), UrlExpirySeconds)["signedURL"]]
    ensures r.Err? ==> r.error == 400
  {
    match FindAudioFile(files, fid)
    case None => Err(CatchAll(Http(404)))
    case Some(a) =>
      var answer := sign(ObjectOf(a), UrlExpirySeconds);
      if "signedURL" !in answer then Err(CatchAll(Http(500)))
      else Ok(map["url" := answer["signedURL"]])
  }
}
