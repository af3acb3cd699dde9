/** The upload flow of one picked file: configuration guard, blob-store upload,
    optional image analysis, and the catalog entry handed to the application.
    File reads, network replies, the model's reply and the clock are
    parameters; the progress indicator is recorded as the sequence of values
    it takes. */
module Uploader {
  import opened Base
  import opened Strings
  import opened Types
  import opened DriveService
  import opened GeminiService

  /** Everything one `handleFileChange` did: the progress values shown, the upload and analysis
      performed, and the item handed to `onUploadComplete`. After the run the indicator is
      cleared (500 ms after success, 2000 ms after failure). */
  datatype UploadRun = UploadRun(
    trace: seq<UploadProgress>,
    upload: Option<DriveUpload>,
    analysis: Option<Analysis>,
    completed: Option<MediaItem>)

  /** The metadata used when no analysis replaces it: the file name, tagged by media family. */
  function DefaultMetadata(file: LocalFile): (m: AiMetadata)
    ensures m.description == file.name
    ensures m.tags == (if StartsWith(file.mimeType, "video/") then ["Video"] else ["Gallery"])
  {
    AiMetadata(file.name, if StartsWith(file.mimeType, "video/") then ["Video"] else ["Gallery"])
  }

  /** The uploader's own guard: both a folder id and an API key are set. */
  predicate StorageConfigured(storage: StorageConfig) {
    Truthy(storage.folderId) && Truthy(storage.apiKey)
  }

  /** How far a started run got. */
  datatype Stage = StoppedAtUpload | StoppedAtRead | Finished

  /** The values the handler sets on the indicator in a run that got to `stage`: the analysing
      value only once the upload is through, and exactly one final value. */
  function ProgressTrace(name: string, stage: Stage): (t: seq<UploadProgress>)
    ensures |t| == if stage == StoppedAtUpload then 3 else 4
    ensures stage == StoppedAtUpload ==> t[2] == UploadProgress(name, 0, Errored)
    ensures t[0] == UploadProgress(name, 5, Uploading) && t[1] == UploadProgress(name, 20, Uploading)
    ensures stage != StoppedAtUpload ==> t[2] == UploadProgress(name, 60, Analyzing)
    ensures t[|t| - 1] == if stage == Finished then UploadProgress(name, 95, Completed) else UploadProgress(name, 0, Errored)
  {
    var started := [UploadProgress(name, 5, Uploading), UploadProgress(name, 20, Uploading)];
    match stage
    case StoppedAtUpload => started + [UploadProgress(name, 0, Errored)]
    case StoppedAtRead => started + [UploadProgress(name, 60, Analyzing), UploadProgress(name, 0, Errored)]
    case Finished => started + [UploadProgress(name, 60, Analyzing), UploadProgress(name, 95, Completed)]
  }

  /** The catalog entry for an uploaded file, and the analysis run for it (images only). */
  datatype Catalogued = Catalogued(item: MediaItem, analysis: Option<Analysis>)

  /** The steps after a successful upload: images are analysed, other files get the default
      metadata; the item is keyed and located by the stored file's id. `data` is the second read
      of the file as base64; `now` is `Date.now()`. */
  function CatalogEntry(f: LocalFile, user: User, fileId: string, data: string, aiReply: GeminiReply, now: int): (c: Catalogued)
    ensures c.item.id == fileId && c.item.url == fileId
    ensures c.item.kind == Video <==> StartsWith(f.mimeType, "video/")
    ensures c.item.fileName == f.name && c.item.size == f.size && c.item.timestamp == now
    ensures c.item.userId == user.id && c.item.userName == user.name
    ensures c.analysis.Some? <==> StartsWith(f.mimeType, "image/")
    ensures c.analysis.Some? ==> c.analysis.value == AnalyzeMedia(data, f.mimeType, aiReply)
    ensures var m := if StartsWith(f.mimeType, "image/") then AnalyzeMedia(data, f.mimeType, aiReply).metadata
                     else DefaultMetadata(f);
      c.item.aiDescription == Some(m.description) && c.item.tags == Some(m.tags)
  {
    var analysis := if StartsWith(f.mimeType, "image/") then Some(AnalyzeMedia(data, f.mimeType, aiReply)) else None;
    var metadata := if analysis.Some? then analysis.value.metadata else DefaultMetadata(f);
    var kind := if StartsWith(f.mimeType, "video/") then Video else Image;
    Catalogued(MediaItem(fileId, fileId, kind, f.name, user.id, user.name, now, f.size,
                         Some(metadata.description), Some(metadata.tags)), analysis)
  }

  /** A started run for file `f`: upload, second read, then the catalog entry. `driveRead` and
      `aiRead` are the two reads of the file as base64; `now` is `Date.now()`. */
  function StartedUpload(
    storage: StorageConfig, user: User, f: LocalFile,
    driveRead: Option<string>, driveReply: DriveReply, aiRead: Option<string>, aiReply: GeminiReply, now: int): (r: UploadRun)
    ensures r.upload == Some(UploadFileToDrive(f, storage, driveRead, driveReply))
    ensures r.trace == ProgressTrace(f.name,
      if r.upload.value.outcome.Failure? then StoppedAtUpload else if aiRead.None? then StoppedAtRead else Finished)
    ensures |r.trace| >= 3
    ensures r.trace[0] == UploadProgress(f.name, 5, Uploading) && r.trace[1] == UploadProgress(f.name, 20, Uploading)
    ensures r.completed.Some? <==> r.upload.value.outcome.Success? && aiRead.Some?
    ensures r.completed.Some? ==>
      var entry := CatalogEntry(f, user, r.upload.value.outcome.value, aiRead.value, aiReply, now);
      && r.completed == Some(entry.item) && r.analysis == entry.analysis
      && r.trace[2] == UploadProgress(f.name, 60, Analyzing)
      && r.trace[|r.trace| - 1] == UploadProgress(f.name, 95, Completed)
    ensures r.completed.None? ==>
      r.analysis.None? && r.trace[|r.trace| - 1] == UploadProgress(f.name, 0, Errored)
  {
    var upload := UploadFileToDrive(f, storage, driveRead, driveReply);
    if upload.outcome.Failure? then
      UploadRun(ProgressTrace(f.name, StoppedAtUpload), Some(upload), None, None)
    else if aiRead.None? then
      UploadRun(ProgressTrace(f.name, StoppedAtRead), Some(upload), None, None)
    else
      var entry := CatalogEntry(f, user, upload.outcome.value, aiRead.value, aiReply, now);
      UploadRun(ProgressTrace(f.name, Finished), Some(upload), entry.analysis, Some(entry.item))
  }

  /** `handleFileChange` for the first picked file (if any): nothing happens without a file or
      without both storage settings; otherwise the upload is started. */
  function HandleFileChange(
    config: CloudConfig, user: User, file: Option<LocalFile>,
    driveRead: Option<string>, driveReply: DriveReply, aiRead: Option<string>, aiReply: GeminiReply, now: int): (r: UploadRun)
    ensures file.None? || !StorageConfigured(config.storage) ==> r == UploadRun([], None, None, None)
    ensures r.upload.Some? <==> file.Some? && StorageConfigured(config.storage)
    ensures r.upload.Some? ==> r == StartedUpload(config.storage, user, file.value, driveRead, driveReply, aiRead, aiReply, now)
  {
    if file.None? || !StorageConfigured(config.storage) then UploadRun([], None, None, None)
    else StartedUpload(config.storage, user, file.value, driveRead, driveReply, aiRead, aiReply, now)
  }

  /** The uploader's guard is the blob-store client's own, so the client's configuration error is
      never what an upload started here ends with. */
  lemma GuardPrecludesConfigError(
    config: CloudConfig, user: User, file: Option<LocalFile>,
    driveRead: Option<string>, driveReply: DriveReply, aiRead: Option<string>, aiReply: GeminiReply, now: int)
    ensures var r := HandleFileChange(config, user, file, driveRead, driveReply, aiRead, aiReply, now);
      r.upload.Some? ==> r.upload.value.outcome != Failure(ConfigMissing)
  {
  }

  /** Every value the indicator shows during one run names the picked file, and the progress
      only rises until the run either completes or errors. */
  lemma ProgressIsMonotone(name: string, stage: Stage)
    ensures var t := ProgressTrace(name, stage);
      && (forall i :: 0 <= i < |t| ==> t[i].fileName == name)
      && (forall i, j :: 0 <= i < j < |t| && t[j].status != Errored ==> t[i].progress <= t[j].progress)
      && (t[|t| - 1].status == Errored <==> stage != Finished)
  {
  }

  /** A type of the video family is not of the image family. */
  lemma VideoIsNotImage(mimeType: string)
    requires StartsWith(mimeType, "video/")
    ensures !StartsWith(mimeType, "image/")
  {
    assert mimeType[0] == "video/"[0];
  }

  /** A completed item carries a description and tags whichever path produced them. */
  lemma CompletedItemIsAnnotated(
    config: CloudConfig, user: User, file: LocalFile,
    driveRead: Option<string>, driveReply: DriveReply, aiRead: Option<string>, aiReply: GeminiReply, now: int)
    requires HandleFileChange(config, user, Some(file), driveRead, driveReply, aiRead, aiReply, now).completed.Some?
    ensures var item := HandleFileChange(config, user, Some(file), driveRead, driveReply, aiRead, aiReply, now).completed.value;
      && item.aiDescription.Some? && item.tags.Some?
      && (item.kind == Video ==> item.tags == Some(["Video"]) && item.aiDescription == Some(file.name))
  {
    var r := HandleFileChange(config, user, Some(file), driveRead, driveReply, aiRead, aiReply, now);
    var entry := CatalogEntry(file, user, r.upload.value.outcome.value, aiRead.value, aiReply, now);
    assert r.completed.value == entry.item;
    if entry.item.kind == Video {
      VideoIsNotImage(file.mimeType);
    }
  }
}
