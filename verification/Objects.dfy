/** The entities that the actors pass to each other. */
module Objects {
  import opened Base

  /** An index into the list of jobs. */
  type JobId = nat

  /** The results of a GET that was made early, while scraping. */
  datatype Cached = Cached(bytes: seq<int>, etag: string, lastModified: string, contentType: string)

  /** `downloadPath` and `symlinkTargetPath` are empty strings if not set. */
  datatype FileSpec = FileSpec(
    path: string,
    downloadPath: string,
    isDirectory: bool,
    lastModified: Option<int>,
    symlinkTargetPath: string,
    contents: Option<Cached>)

  datatype File = File(job: JobId, spec: FileSpec)

  datatype TransferResult = Success | Skipped | Failed

  /** `actors.ReportEvent`; its boolean fields are the constructors and their arguments. */
  datatype ReportEvent =
    | JobEvent(skipped: bool)
    | DirectoryEvent(failed: bool)
    | FileEvent(result: TransferResult, bytes: nat)
    | CleanupEvent(objects: nat)

  /** `actors.FileInfoForCleaner` */
  datatype Info = Info(file: File, failed: bool)

  /** An object of the target side. */
  datatype ObjectName = ObjectName(container: string, name: string)

  datatype CleanupStrategy = KeepUnknownFiles | ReportUnknownFiles | DeleteUnknownFiles
}
