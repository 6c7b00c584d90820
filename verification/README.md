# Verification of swift-http-import

A Dafny model of swift-http-import with machine-checked proofs. `dafny verify dfyconfig.toml` checks the whole project
(Dafny 4.11). The model follows the Go sources; paths and lines below are relative to the repository.

## What is modelled

**The segmented download** (`pkg/util/http.go`, `pkg/util/io.go`). `Download.dfy` has one function for every function
of `EnhancedGet`, over the fields of `downloader`; `Downloader.dfy` has the classes `Downloader` and `FullReader` whose
methods are proved against these functions. The server is an arbitrary function that answers the k-th request. On top
of that: the stream is one version of the resource (`DownloadCorrect.dfy`), requests and restarts are bounded
(`DownloadLimits.dfy`), buffer sizes do not matter (`DownloadBuffers.dfy`), and Content-Range headers are parsed
exactly (`ContentRange.dfy`).

**The scraper** (`pkg/actors/scraper.go`, `pkg/objects/match.go`, `pkg/objects/source.go`). `Scraping.dfy` describes
the walk over the stack with its postponed retries, `ScrapeOrder.dfy` its order, `ScrapeTree.dfy` and `ScrapeJob.dfy`
what is sent, `ScrapeOutcomes.dfy` what becomes of each directory, `ScrapeListing.dfy` the same for sources that list
all files at once, `Matching.dfy` the rules, `Links.dfy` the links in a listing, and `Scraper.dfy` the loop itself.

**The pipeline** (`main.go`, `pkg/actors`). `Pipeline.dfy` is a transition system: the scraper, any number of
transferors, the cleaner, the report actor and main make steps in any order, and the interrupt may come between any two
of them. What the iterations of the scraper do is an arbitrary script, which covers listings that fail because of the
interrupt. Sending to a channel is possible even after it has been closed, so that the absence of such sends is a
theorem; sending to the report actor, whose channel has no buffer, is possible only while it waits for an event. The
steps of a transfer (HEAD, upload, cleanup after a failure) are separate, so that transfers to the same object
interleave. What every step keeps is proved in `PipelineDiscipline.dfy` (channels, wait groups), `PipelineFlow.dfy`
(files), `PipelineMirror.dfy` (target), `PipelineCleanup.dfy` (cleaner), `PipelineReport.dfy` (report),
`PipelineRetry.dfy` (second attempts), `PipelineOrder.dfy` (order), `PipelineImmutable.dfy` and `PipelineEmptyJob.dfy`;
`PipelineProgress.dfy` has freedom from deadlock and termination. `Transferor.dfy`, `Cleaner.dfy` and `Report.dfy` have
these actors in the form of the source: every run of the transferor's loops is a path of the transition system, and
what the cleaner and the report actor do is described by the functions that the transition system uses, too.

**From the tree to the target.** `Mirror.dfy` puts the scraper's walk into the pipeline: `Mirror.TargetMirrorsSource`
says that after a run without interrupt or failure the objects of a job are exactly those of the files that its rules
select from its source, and `Mirror.TargetIsCurrent` when they have the version of the source, too.

**Single transfers and sources** (`pkg/objects`). `Transfer.dfy` has `PerformTransfer` and what it stores for the next
run, `TransferSteps.dfy` ties it to the transition system, `Location.dfy` has the naming of objects, `Yum.dfy` and
`Debian.dfy` the listings of repositories, and `MetadataOrder.dfy` says when they arrive.

## Assumptions

These are stated as hypotheses where they are needed.

- Correctness of downloads: truthful responses. A 200 or 206 carries contents of the version that its Etag names, with
  a known total; a server without Etags has a single version. Other responses may be anything; only if the download
  restarts at offset 0, a page without contents must not carry the Etag of a version (and a server without Etags must
  not send one; `DownloadCorrect.PageTakenForContent` says why). The first part has to begin at offset 0, which the
  code does not check: `DownloadCorrect.FirstPartDecides` says exactly when this matters, and
  `DownloadCorrect.FirstOffsetIsUnchecked` shows a case. Claims about the stream end with the first error, because the
  code may report EOF after an error (`DownloadCorrect.EofAfterAnError`).
- Request bound: an error-free 206 has exactly the bytes asked for, and no 64-bit sum wraps.
- Scraper: directories lie deeper in a finite tree than the one they are found in. A link `./` breaks this:
  `Links.LinksStayInside` says exactly when. A repeated `ListAllFiles` sends files again, and what only failed attempts
  have listed is sent, too (`ScrapeListing.ListingYields`).
- Mirror: targets of different jobs do not overlap (`Mirror.LocationsAreSeparate`). A file is skipped as unchanged only
  if the target has an object for it, in whatever version: that a source does not answer "not modified" to a request
  without conditions is part of the transition system.
- Versions on the target side (`PipelineMirror.MirrorIsCurrent` and what follows from it): no object is found in two
  versions, and in the run in question files were only uploaded in the version of the source, and only skipped if the
  version found was that one. `TransferSteps.ExactAttemptsFit` derives the latter for symlinks and for sources with
  Etags; `Transfer.SkippedIffNotNewer` says what comparisons by date do instead.
- At least one transferor is configured, and the snapshot of existing objects is taken before the run.

## Where code and documentation differ

The model follows the code.

- `README.md:442` speaks of segments of 500 MiB by default; `pkg/objects/source.go:163` uses 512 MiB. The model has the
  segment size as a parameter.
- `pkg/util/http.go:292` says that an error at the same offset is retried 3 times; at a positive offset there are 4
  restarts (`DownloadLimits.RestartsAreLimited`).
- `pkg/objects/swift.go:338-340` says that the matcher restricts the snapshot of existing objects; it is not used.
- `README.md:204-205` says that a Yum job is skipped if verification is unsuccessful; a repository without a signature
  (status 404) is listed even if verification is enabled (`pkg/objects/yum.go:107-111`, `Yum.ListEntries`).
- `pkg/objects/yum.go:189-196` says that transferred metadata is what was parsed; the primary index is sent before it
  is downloaded for parsing, so this holds only for `repomd.xml`, and only if no index is named like it
  (`Yum.ListAllFiles`).
- `pkg/actors/cleaner.go:49-53` leaves jobs without files alone (`PipelineEmptyJob.EmptyJobIsLeftAlone`), although
  `README.md:552-554` promises the deletion of all objects that are not on the source side.

## Model

| member | source | states |
|---|---|---|
| ContentRange.AcceptsExactly | pkg/util/http.go:180-206 | A header is accepted with a triple exactly if it has the form of section 4.2 of RFC 7233, its digits denote that triple, all numbers are below 2^64 and stop >= start |
| ContentRange.PrintThenParse | pkg/util/http.go:182-206 | Parsing the printed header of any triple with start <= stop < 2^64 and an optional total < 2^64 returns that triple |
| ContentRange.MatchIsComplete | pkg/util/http.go:180-187 | The pattern matches every string of its form, and finds its three groups |
| ContentRange.DenotesIsConversion | pkg/util/http.go:188-205 | Converting the groups succeeds with a triple exactly if they denote it |
| Downloader.Downloader.GetNextChunk | pkg/util/http.go:127-176 | The method on the fields does what the function `Download.GetNextChunk` says of their values: request, Etag check, Content-Range check |
| Downloader.Downloader.ShouldRetry | pkg/util/http.go:277-303 | The method updates the retry counters and decides as the function `Download.ShouldRetry` |
| Downloader.Downloader.NextChunk | pkg/util/http.go:246-264 | End of file, or the next chunk with its offset check, as `Download.NextChunk` |
| Downloader.Downloader.AfterBody | pkg/util/http.go:218-264 | What follows the end of a body, regular or not, as `Download.AfterBody` |
| Downloader.Downloader.Read | pkg/util/http.go:209-265 | One `Read` into a stretch of a buffer: the state, the bytes in the buffer and the error are those of `Download.Read`, the rest of the buffer is untouched |
| Downloader.FullReader.Read | pkg/util/io.go:15-25 | Fills the buffer over the downloader and terminates, unless regular parts are empty or bodies stall; a short count always comes with an error; the bytes are those of successive reads of the downloader; the rest of the buffer is untouched |
| Downloader.FullReader.ReadOnce | pkg/util/io.go:18-22 | One turn of the loop: the bytes of one read, and progress in the measure (bytes left, restarts left, body at its end) if there was none |
| Downloader.AfterBodyDecreases | pkg/util/http.go:218-264 | What follows the end of a body decreases the lexicographic measure (bytes left, restarts left, body at its end), if it is no error |
| Downloader.ReadDecreases | pkg/util/io.go:17-23 | Against any server whose regular parts are not empty and whose bodies do not stall, every read without error and without bytes decreases that measure |
| Downloader.ParsedTells | pkg/util/http.go:156-206 | A response counts with the Content-Range that its header denotes, and otherwise as it is |
| Downloader.EnhancedGet | pkg/util/http.go:27-86 | The method agrees with the function `Download.EnhancedGet` (see `DownloadCorrect.FirstResponseDecides` and the rows after it) on what the wire says, and wraps the downloader in a `FullReader` exactly if the file comes in segments |
| Downloader.EnhancedGetFrom | pkg/util/http.go:37-85 | The same, for responses whose Content-Range has been parsed |
| DownloadCorrect.NextChunkKeeps | pkg/util/http.go:246-264 | A part that is accepted continues the version that is being read at the right offset, whatever the server answers in between |
| DownloadCorrect.ReadKeeps | pkg/util/http.go:209-265 | One `Read` delivers the next bytes of the version, or an error; EOF only at its end |
| DownloadCorrect.RunDeliversOneVersion | pkg/util/http.go:209-265 | Download correctness for a single version: all bytes up to the first error are consecutive bytes of the version of the first response, and EOF as the first error means that it is complete, wherever bodies are cut and whenever versions are swapped |
| DownloadCorrect.FirstResponseDecides | pkg/util/http.go:37-58 | By the status of the first response: 416 leads to the answer to a plain request (or its transport error), 206 without a readable Content-Range is refused, anything else but 206 is passed on as it is |
| DownloadCorrect.FirstPartIsShown | pkg/util/http.go:60-85 | A 206 is shown as the whole file exactly if it holds all of it and the file is not empty; otherwise it is continued in segments, with the total as length, exactly if the total is known and fits in an int64 |
| DownloadCorrect.EnhancedGetRefinesGet | pkg/util/http.go:27-86 | Without ranges, with an empty resource (416) or an error page, in one part or in many, with Etags or without, the caller of EnhancedGet sees status, length and bytes of one response or version as from a plain GET, and sees it in each of these cases |
| DownloadCorrect.PresentedFaithfully | pkg/util/http.go:40-85 | Each of the ways to pass a first response on shows one version of the resource, and which one it is depends on the status |
| DownloadCorrect.PartTakenIff | pkg/util/http.go:147-176 | A 206 is taken as the next part exactly if its Etag is not refused and its Content-Range can be read, begins where the last part ended and repeats the total |
| DownloadCorrect.RegularEnd | pkg/util/http.go:218-243 | At the regular end of a body: an error exactly if it cannot be closed, otherwise EOF without a request if all bytes have been read and one request if not |
| DownloadCorrect.PageTakenForContent | pkg/util/http.go:157-158 | A response that is not a 206 is taken as the next part exactly if nothing has been read yet and its Etag is not refused |
| DownloadCorrect.EofAfterAnError | pkg/util/http.go:211-224 | After an error the next `Read` says EOF exactly if the body before the error had ended regularly |
| DownloadCorrect.ReadCounts | pkg/util/http.go:227-264 | A read at the broken end of a body or after a failed restart counts as one more error, ends with it exactly if no restart is granted, and sends exactly one request if one is granted and bytes are missing, otherwise none |
| DownloadCorrect.FirstPartDecides | pkg/util/http.go:61-76 | The offset of the first part is not checked: the caller sees the version however it reads exactly if the first body is the beginning of the version, which offset 0 guarantees |
| DownloadCorrect.FirstOffsetIsUnchecked | pkg/util/http.go:61-76 | A truthful server for which the missing check of the first offset makes the caller read wrong contents followed by EOF |
| DownloadLimits.RetryIffAllowed | pkg/util/http.go:277-303 | A restart is granted exactly if there have been fewer than 10, and fewer than 3 at offset 0 or 4 at this positive offset |
| DownloadLimits.RestartsAreLimited | pkg/util/http.go:277-303 | For every server: at most 10 restarts, at most 4 at any positive offset and 3 at offset 0 |
| DownloadLimits.RangeGoodIffNoWrap | pkg/util/http.go:133-139 | A follow-up request asks for between 1 and SegmentBytes bytes below the total exactly if offset plus segment size does not wrap |
| DownloadLimits.SegmentsIsCeiling | pkg/util/http.go:133-138 | The number of segments is the ceiling of size / SegmentBytes |
| DownloadLimits.RequestsAreBounded | pkg/util/http.go:27-139 | Reading from a segmented result of EnhancedGet sends at most ceil(total / SegmentBytes) + 10 range requests in all, and all but the first are well formed |
| DownloadLimits.RunProgresses | pkg/util/http.go:209-265 | Every read without error advances the number of bytes or requests |
| DownloadLimits.DownloadCompletes | pkg/util/http.go:27-265 | Reading a segmented result of EnhancedGet from a steady server ends after finitely many reads with EOF after the whole version, unless the restart limits are reached |
| DownloadBuffers.BuffersDoNotMatter | pkg/util/io.go:15-25 | Bytes, error and final state of a download do not depend on the buffer sizes of its reader |
| DownloadBuffers.RunSettles | pkg/util/http.go:209-265 | Reading with any buffers comes to what reading everything at once comes to, or to a prefix |
| Matching.CheckRecursive | pkg/objects/match.go:82-91 | No error exactly if every directory on the way and the path itself pass the check |
| Matching.CheckFile | pkg/objects/match.go:70-75 | The same for a file spec; directories are checked with a slash appended |
| Matching.CheckDirectories | pkg/objects/match.go:83-89 | The loop returns the error of the outermost directory that fails |
| Matching.FirstErrorIff | pkg/objects/match.go:83-89 | Stepping through the pieces of a path checks exactly its prefixes that end in a slash |
| Matching.AdmitsByRules | pkg/objects/match.go:46-91 | What admission means: every directory on the way and the path itself match the include pattern and not the exclude pattern, where the root always passes; and the path is not too old |
| Matching.CheckTells | pkg/objects/match.go:46-66 | Which reason is given: age goes before the exclude pattern, and that before the include pattern |
| Matching.NothingBelowExcluded | pkg/objects/match.go:68-91 | The selection is prefix-closed: nothing below an excluded directory is admitted |
| Scraping.IterationLeaves | pkg/actors/scraper.go:38-123 | An iteration of the main loop makes one visit and leaves all others to do; without a failure even in the same order |
| Scraping.WalkVisitsEverything | pkg/actors/scraper.go:38-123 | However failures are postponed, the walk makes exactly the visits that the directories cause |
| Scraping.WalkUnfolds | pkg/actors/scraper.go:38-123 | Every iteration decreases the number of visits to come, so the loop terminates |
| ScrapeOrder.JobsInOrder | pkg/actors/scraper.go:29-36 | Without failed listings, everything of a job comes before anything of the next |
| ScrapeOrder.PostponedComeLast | pkg/actors/scraper.go:115-119 | Retry order: a round of first attempts goes through everything on the stack and all that it pushes, then come the failed ones, in the order in which they failed |
| ScrapeOrder.EveryDirectoryEndsOnce | pkg/actors/scraper.go:101-122 | Each single directory comes to exactly as many final outcomes as it stands on the stack at first and is found later, after at most three attempts each |
| ScrapeOrder.VisitsBalance | pkg/actors/scraper.go:38-123 | The visits are, each once, those of the initial, the pushed and the postponed directories |
| ScrapeTree.VisitorIsFinite | pkg/actors/scraper.go:42-119 | If directories lie deeper than the one they are found in, then the walk is finite |
| ScrapeTree.AttemptsDoNotMatter | pkg/actors/scraper.go:101-119 | Attempts that come to nothing leave no trace; the last one decides what is sent |
| ScrapeTree.PrunedWalkIsFilter | pkg/actors/scraper.go:50-98 | The pruned walk of a tree sends, each once, the files that a filter over the complete tree keeps |
| ScrapeTree.ScrapeIsFilter | pkg/actors/scraper.go:28-127 | The same for all jobs together, for sources that list one directory at a time |
| ScrapeOutcomes.VisitSends | pkg/actors/scraper.go:50-98 | One attempt, from the answers of the source: it sends exactly the admitted files and leads to exactly the admitted directories among its entries, those before an error of ListAllFiles included and none after a failed ListEntries |
| ScrapeOutcomes.VisitFits | pkg/actors/scraper.go:101-122 | One attempt: if it is not the last one it is repeated and nothing is reported, otherwise the outcome is reported |
| ScrapeOutcomes.DirectoryOutcomes | pkg/actors/scraper.go:101-122 | Each single directory, from the answers of the source: it is tried until it is listed, its signature is refused, or three attempts have failed; and exactly this is reported, once for each time it is found (a refused signature as a skipped job, after the first refusal) |
| ScrapeOutcomes.IncompleteIff | pkg/actors/scraper.go:102-114 | A job counts as incomplete exactly if the signature of one of its directories is refused or three attempts to list one fail |
| ScrapeOutcomes.GivenUpIff | pkg/actors/scraper.go:109-114 | A directory is given up exactly if its third attempt fails, too |
| ScrapeListing.ListingYields | pkg/actors/scraper.go:70-98 | For a source that lists all files at once, the admitted entries of all attempts up to the successful one are sent, the failed ones included, and the job is not marked |
| ScrapeListing.FinalListingYields | pkg/actors/scraper.go:70-98 | If failed attempts list a part of the final listing, exactly the admitted entries of the final listing are sent |
| ScrapeJob.ListedTreeIsComplete | pkg/actors/scraper.go:101-119 | If all directories can be listed within their attempts, then none is given up and the job is not skipped |
| ScrapeJob.WalkOfJob | pkg/actors/scraper.go:38-123 | The visits to directories of a job are those that its root directory causes, whatever the other jobs do |
| ScrapeJob.TreeYields | pkg/actors/scraper.go:28-127 | For a job whose directories can all be listed, the visits that its root causes send exactly the files of its tree that the rules select |
| ScrapeJob.JobIsScraped | pkg/actors/scraper.go:28-127 | Whatever the other jobs do, the walk over all jobs sends for a job exactly what its own root yields, and does not mark it as incomplete |
| Scraper.FiltersArePrefixClosed | pkg/objects/match.go:46-91 | The filters that matchers define are prefix-closed, as the pruned walk needs |
| Scraper.Scraper.HandleEntries | pkg/actors/scraper.go:50-68 | Admitted files are sent and admitted directories are pushed, in the order of the listing |
| Scraper.Scraper.ListAndHandle | pkg/actors/scraper.go:70-98 | ListAllFiles at the top, ListEntries otherwise or if that is not supported; entries before an error are handled |
| Scraper.Scraper.Process | pkg/actors/scraper.go:44-122 | One iteration: stack, output, report and completeness flag after it |
| Scraper.Scraper.PushRoots | pkg/actors/scraper.go:29-36 | The stack begins with the jobs in reverse |
| Scraper.Scraper.Run | pkg/actors/scraper.go:28-127 | The loop makes the visits of the walk up to the interrupt, sends their files and events in order, marks incomplete jobs and closes its output |
| Links.EntriesAreThose | pkg/objects/source.go:287-321 | The entries are exactly those of the links without scheme, host, query and fragment that neither begin with a slash nor lead outside, and are directories exactly if the link ends in a slash |
| Links.DotDotIsFound | pkg/objects/source.go:211-211 | The pattern for links to the outside finds a match exactly if one of the path elements is `..` |
| Links.NameLeadsThere | pkg/objects/source.go:302-318 | A link to a name, with or without a slash, leads to that name in the directory |
| Links.RootIsClean | pkg/objects/match.go:47-51 | A path counts as the root exactly if it begins with a slash and cleaning leaves no element of it |
| Links.ListEntries | pkg/objects/source.go:259-321 | The entries of a listing are those of the links that are followed, in order |
| Links.LinksStayInside | pkg/objects/source.go:291-318 | A link that is followed leads below its directory or, exactly if it consists of nothing but slashes and dots, to the directory itself |
| Links.EntriesStayInside | pkg/objects/source.go:218-322 | No entry of a listing lies outside the directory |
| PipelineDiscipline.StartIsDisciplined | main.go:74-98 | The invariant of channels and wait groups holds when the scraper has been started |
| PipelineDiscipline.ScraperKeepsDiscipline | pkg/actors/scraper.go:38-126 | The steps of the scraper keep it |
| PipelineDiscipline.WorkerKeepsDiscipline | pkg/actors/transfer.go:25-74 | The steps of a transferor keep it, including its leaving both wait groups |
| PipelineDiscipline.CleanerKeepsDiscipline | pkg/actors/cleaner.go:32-88 | The steps of the cleaner keep it |
| PipelineDiscipline.ReporterKeepsDiscipline | pkg/actors/report.go:72-145 | The steps of the report actor keep it: it leaves only after its channel has been closed |
| PipelineDiscipline.MainKeepsDiscipline | main.go:74-106 | The steps of main keep it: starting actors, waiting, closing |
| PipelineDiscipline.AlwaysDisciplined | pkg/actors/actor.go:19-31 | In every reachable state the wait groups count the running actors; a channel is closed only after all its senders have gone; files are left out only after an interrupt |
| PipelineProgress.NoSendAfterClose | main.go:78-104 | No actor ever sends to a closed channel, with any number of transferors, any interleaving and an interrupt at any time |
| PipelineProgress.WorkerMovesOrWaits | pkg/actors/transfer.go:32-73 | A transferor can move, or waits for the scraper, for room in the second queue, or for the report actor |
| PipelineProgress.NoDeadlock | main.go:55-106 | With at least one transferor, every reachable state before the exit of main has a step other than the interrupt, although the report channel has no buffer |
| PipelineProgress.StepsLeadToTheEnd | main.go:55-106 | Every step of every actor decreases a measure |
| PipelineProgress.EveryRunExits | main.go:65-106 | No run is longer than the measure of its start, and a run that cannot go on has reached the exit of main, after the report actor has gone |
| PipelineFlow.MoveTransfers | pkg/actors/transfer.go:33-50 | A move of a transferor takes, holds, hands over and reports each file as it should, and begins no attempt too many |
| PipelineFlow.AlwaysFlows | pkg/actors/transfer.go:28-73 | Conservation in every reachable state: what has been sent is queued, in hand, on a retry list, handed over or thrown away; what has been handed over is reported or about to be; attempts are limited |
| PipelineFlow.EachFileOnce | pkg/actors/transfer.go:28-73 | When the transferors are gone, each file has been handed over and reported exactly once, or thrown away after an interrupt, and tried at most twice |
| PipelineRetry.MoveSpends | pkg/actors/transfer.go:28-67 | Every move of a transferor has been paid for with attempts: one before a file is put back, two before it is handed over as failed |
| PipelineRetry.FailsAfterTwoTries | pkg/actors/transfer.go:52-67 | As long as there is no interrupt, a file is only handed over as failed after it has been tried twice, for each time it is |
| PipelineImmutable.ImmutableIsUntouched | pkg/objects/file.go:70-77 | In every reachable state, an object of immutable files that was in the snapshot has the version that it had before the run |
| PipelineCleanup.AlwaysCleansWell | pkg/actors/cleaner.go:61-87 | The cleaner works with what is true of failed and incomplete jobs, and deals with every job in question |
| Cleanup.CleanedUpIff | pkg/actors/cleaner.go:39-87 | A job is cleaned up exactly if it deletes unknown files, a file of it has been handed over, none has failed, and its scrape was complete |
| PipelineCleanup.CleanupIsSafe | pkg/actors/cleaner.go:57-88 | Whenever something is deleted for a job: it is configured to delete unknown files, no interrupt so far, the scraper has done its whole work, every file it sent has been handed over, none of the job has failed, no directory of it was given up, and no object of a file that was found is deleted |
| PipelineMirror.DebtsArePaid | pkg/actors/transfer.go:33-67 | A transferor that owes an object writes it, finds it up to date, or reports the failure |
| PipelineMirror.SpoilersOwe | pkg/objects/file.go:193-318 | A transferor that spoils an object with a failed upload owes it from then on |
| PipelineMirror.AlwaysBacked | pkg/actors/transfer.go:25-74 | In every reachable state, whatever somebody relies upon is on the target side (in a version that fits), or somebody owes it, or its failure has been handed over |
| PipelineMirror.AlwaysOriginates | pkg/actors/transfer.go:25-74 | Objects on the target side have been there before or belong to a file that was sent |
| PipelineMirror.NothingIsMissing | pkg/actors/transfer.go:25-74 | After a run without interrupt, every file of a job without failures is on the target side |
| PipelineMirror.AnyRunFits | pkg/objects/file.go:124-182 | However files are compared and the source changes meanwhile, every run fits if any version does; so the statement about names below has no hypothesis on versions |
| PipelineMirror.MirrorIsExact | pkg/actors/cleaner.go:32-129 | Exactness of the mirror for every kind of comparison: the objects below the prefix of the job are exactly those of the files that were sent for it |
| PipelineMirror.MirrorIsCurrent | pkg/actors/cleaner.go:32-129 | If files were only uploaded in the version of the source, and only skipped when the version found was that one, each of these objects has this version; immutable files that were there before the run may have any |
| PipelineEmptyJob.EmptyJobIsLeftAlone | pkg/actors/cleaner.go:50-87 | As long as no file of a job has been sent, its target is what it was before the run |
| PipelineOrder.InOrder | pkg/actors/transfer.go:33-50 | With one transferor and no failed attempt, files are tried in the order in which they are sent, and everything sent before a file that is tried is on the target side |
| PipelineScript.WholeScript | pkg/actors/scraper.go:38-126 | Without an interrupt, all that the iterations send has been sent, in order, and all that they mark has been marked; with one, a beginning of it |
| PipelineReport.AlwaysAccounted | pkg/actors/report.go:85-108 | In every reachable state, the events reported, due and still to come are those of the scraper plus one for each file handed over |
| PipelineReport.ExitCodeIsSet | main.go:69-71 | At the exit of main, the statistics of the report actor count exactly the events that were sent to it, and its exit code is 1 exactly if there is a failure among them |
| PipelineReport.ExitCodeTells | pkg/actors/report.go:138-145 | At the exit, the report has found every file that was handed over; a failed file makes the exit code 1; without interrupt, it is 1 exactly if a file failed or a directory was given up, and 0 otherwise |
| PipelineReport.CleanupsAreCounted | pkg/actors/cleaner.go:114-119 | At the exit, the statistics have counted every object that was deleted in the run |
| Mirror.ScriptDoes | pkg/actors/scraper.go:38-123 | The script of the pipeline sends, marks and tells what the visits of the scraper do |
| Mirror.SelectedAreSent | pkg/actors/scraper.go:28-127 | After a run without interrupt, the files sent for a job are exactly those that its scrape yields |
| Mirror.TargetMirrorsSource | pkg/actors/cleaner.go:32-129 | From the source to the target: the objects of the job are exactly those of the files that its scrape yields, however files are compared |
| Mirror.TargetIsCurrent | pkg/actors/cleaner.go:32-129 | If files were only uploaded in the version of the source, and only skipped when the version found was that one, each of these objects has this version; immutable files that were there before the run may have any |
| Mirror.TargetMirrorsTree | pkg/actors/cleaner.go:32-129 | For a source that lists one directory at a time, all of which can be listed: the objects of the job are exactly those of the files that its rules select from its tree |
| Mirror.TargetMirrorsListing | pkg/actors/cleaner.go:32-129 | For a source that lists all files at once, whose failed attempts list a part of the final listing: the objects of the job are exactly those of the files that its rules select from the final listing |
| Mirror.LocationsAreSeparate | pkg/objects/swift.go:243-246 | Targets do not interfere if they are in different containers or neither prefix begins with the other |
| Mirror.LocationsSuit | pkg/objects/swift.go:243-246 | Then two files with the same object ask for the same version, if paths of a job that differ by no more than a leading slash do |
| Mirror.ExitCodeAfterScrape | pkg/actors/report.go:138-145 | After a run without interrupt the exit code is 1 exactly if a file failed or all three attempts to list some directory failed; a job skipped for its signature does not count |
| Mirror.CleanupNeedsWholeScrape | pkg/actors/scraper.go:101-114 | Whenever something is deleted for a job, every directory of it that was found has been listed: none failed three times and no signature was refused |
| Transferors.Transferor.Run | pkg/actors/transfer.go:25-74 | Everything that the loops do is a path of the transferor in the transition system, in surroundings where the interrupt and the end of the input come at most once; files whose first attempt does not fail are handed over and reported at once with its result and bytes, the others after them with those of a second attempt, unless there has been an interrupt, and then as failed; in order of arrival |
| Transferors.PlacesAreThose | pkg/actors/transfer.go:41-49 | The files handed over at once, and those put back, are exactly those whose first attempt does not fail, or fails |
| Transferors.PlacesIncrease | pkg/actors/transfer.go:41-49 | Both are in the order of arrival |
| Transferors.Transferor.MainLoop | pkg/actors/transfer.go:30-50 | Files are tried in the order of arrival; those that fail are put back, the others are handed over and reported with the result and bytes of the attempt |
| Transferors.Transferor.RetryAll | pkg/actors/transfer.go:52-67 | Every file that was put back is tried again and handed over and reported with the outcome of that attempt, or without one as failed once the context is done |
| Transferors.Transferor.Try | pkg/objects/file.go:66-197 | An attempt with a given outcome as moves of the transition system, with its result |
| Transferors.Transferor.Send | pkg/actors/transfer.go:46-47 | First the message to the cleaner, then the one to the report |
| Cleaners.Cleaner.Collect | pkg/actors/cleaner.go:39-56 | The maps know exactly the jobs with a cleanup, their failures and their objects |
| Cleaners.Cleaner.Run | pkg/actors/cleaner.go:32-88 | Bulk deletes are requested for exactly the jobs to clean up among those that the last loop comes to, for exactly their unknown objects; these are all jobs, or with an interrupt only as many as come before it; and each number deleted is reported, at least zero |
| Cleaners.RequestsAreThose | pkg/actors/cleaner.go:78-87 | One request for each job to clean up that the loop comes to, and no other |
| Cleaners.Cleaner.CleanUp | pkg/actors/cleaner.go:78-87 | The loop over the jobs, in whatever order the map has, which ends at the interrupt |
| Cleaners.Cleaner.PerformCleanup | pkg/actors/cleaner.go:90-129 | Requests the deletion of the existing objects that were not transferred, and reports the number, at least zero; does neither if only reporting is configured |
| Reports.AddTallies | pkg/actors/report.go:85-108 | Counting one more event keeps the statistics in step with the events |
| Reports.ExitCodeIsFailure | pkg/actors/report.go:138-145 | The exit code that the statistics give is 1 exactly if a file or a directory has failed |
| Reports.Report.Run | pkg/actors/report.go:72-145 | The statistics count the events of each kind, and the exit code is 1 exactly if a file or a directory has failed |
| Reports.Report.Mark | pkg/actors/report.go:85-108 | One event changes exactly the counters of its kind |
| Locations.SameObject | pkg/objects/swift.go:243-246 | Two paths lead to the same object exactly if they differ by no more than a leading slash |
| Locations.ListedObjectIsFound | pkg/objects/swift.go:278-286 | A listed object is found again under its path exactly if its name does not go on with a slash after the prefix |
| Locations.TargetsOverlap | pkg/objects/swift.go:243-246 | Two targets share an object name exactly if one prefix begins with the other, in one container |
| Locations.DiscoverExistingFiles | pkg/objects/swift.go:341-366 | The snapshot has exactly the objects below the prefix, whatever the rules of the job |
| Locations.Normalize | pkg/objects/swift.go:126-128 | The prefix is empty or ends in a slash, and stays as it is if it already does |
| Transfer.Target.PerformTransfer | pkg/objects/file.go:66-197 | The method does to the target what the function `Transfer.Perform` says, with its result |
| Transfer.Target.UploadSymlink | pkg/objects/file.go:199-217 | Skips a symlink that is there, otherwise stores it or cleans up |
| Transfer.Target.UploadObject | pkg/objects/file.go:257-309 | Stores the object; after a failure cleans up, except after rate limiting of a normal upload |
| Transfer.Target.CleanupFailedUpload | pkg/objects/file.go:311-319 | Removes the object if the deletion succeeds |
| Transfer.OutcomeTells | pkg/objects/file.go:66-197 | Whatever happens, only the object of the file changes; success and skipping mean that it is there; skipping changes nothing and transfers 0 bytes |
| Transfer.SuccessStores | pkg/objects/file.go:161-195 | After a success the object has the contents, type, Etag and date of the source, and the result its size; it has an expiry exactly if the job enables that and the source has one, later by the delay of the job |
| Transfer.SecondTransferSkips | pkg/objects/file.go:124-182 | Run to run: a second transfer from an unchanged source that follows sections 3.2 and 3.3 of RFC 7232 (or is cached) is skipped exactly if the resource has an Etag or a readable date; for the simplistic comparison, the condition on the dates |
| Transfer.SecondLinkSkips | pkg/objects/file.go:199-206 | A symlink that has been stored is skipped the next time |
| Transfer.SkippedIffSameEtag | pkg/objects/file.go:124-163 | A mutable regular file is skipped exactly if its Etag is the stored one |
| Transfer.SkippedWithoutEtag | pkg/objects/file.go:124-182 | If an Etag was stored and the source has none now, only a cached file is skipped, exactly if it has the stored date |
| Transfer.SkippedIffNotNewer | pkg/objects/file.go:124-182 | With the simplistic comparison or without a stored Etag, a file is skipped exactly if its date is not newer than the known one (the same, for a cached file); so a source that went back to an older date is not followed |
| Transfer.GuardsDecide | pkg/objects/file.go:69-121 | An immutable file in the snapshot is skipped whatever happens; otherwise a failed HEAD ends the transfer |
| Transfer.StoredAsLink | pkg/objects/file.go:79-128 | A file is stored as a symlink exactly if it is one, the target side supports that and the rules admit what it leads to, and then the symlink leads there |
| Transfer.UploadDecides | pkg/objects/file.go:184-309 | A file that is not skipped is uploaded: success with its size, or failure with what the failed upload and its cleanup leave, where only large objects are removed after rate limiting |
| Transfer.LinkDecides | pkg/objects/file.go:199-217 | The same for a symlink that is not yet there |
| Transfer.UnreadableDateFails | pkg/objects/file.go:235-250 | A cached file fails before the upload exactly if its date is compared and one of the dates cannot be read |
| Transfer.PanicsIffSizeUnknown | pkg/objects/file.go:184-195 | The transfer crashes exactly if an upload succeeds whose size is unknown |
| TransferSteps.TransferIsAttempt | pkg/objects/file.go:66-197 | The transfer of a symlink or regular file, however it is compared, is an attempt of the transition system with the same target side and the same result |
| TransferSteps.ExactAttemptsFit | pkg/objects/file.go:124-206 | Symlinks, and regular files of sources with Etags that do not change meanwhile, are only uploaded in the version of the source, and only skipped if the version found is that one |
| Yum.ListAllFiles | pkg/objects/yum.go:70-187 | A listing completes exactly if the metadata can be read, where signature and key may be missing, and no signature is refused; then it has signature, entries, packages, deltas, key and finally repomd.xml with the bytes of their last download; otherwise it breaks off where the error is, exactly with a GPG error if the signature is refused |
| Yum.ListEntries | pkg/objects/yum.go:71-118 | The part up to the entries of repomd.xml, and when the verification fails |
| Yum.ListPackages | pkg/objects/yum.go:120-172 | The part with packages and deltas |
| Yum.EmitPackages | pkg/objects/yum.go:140-144 | Sends the files of the packages for the architectures in question |
| Yum.SelectedAreThose | pkg/objects/yum.go:140-170 | These are the files of the packages without architecture or with one that is asked for, or of all if none is |
| Yum.LastHrefCounts | pkg/objects/yum.go:113-118 | Of several entries of one kind in repomd.xml the last one counts |
| Yum.DeltasAreOptional | pkg/objects/yum.go:120-152 | The index of packages has to be there, the one of deltas has two names of which prestodelta goes first, and may be missing |
| Yum.RepomdComesLast | pkg/objects/yum.go:174-184 | In a complete listing repomd.xml is last and all packages come before it; it also stands elsewhere exactly if it is named as an entry or package |
| Debian.CompressionsAreOneIndex | pkg/objects/debian.go:298-305 | Both compressions of an index have the same name without extension |
| Debian.NoteIndices | pkg/objects/debian.go:171-198 | The indices of sources and of the architectures in question |
| Debian.ReadIndices | pkg/objects/debian.go:200-242 | All files of all indices, in either compression, or an error if one can be had in neither |
| Debian.PoolIsMentioned | pkg/objects/debian.go:158-242 | The pool has exactly what the indices of sources and of the architectures in question (of the configuration, or else of the release) mention, in the xz form if there is one, otherwise in the gz form |
| Debian.MissingRootIsEmpty | pkg/objects/debian.go:249-254 | A root that is not found counts as empty, but one that cannot be listed does not |
| Debian.RecursivelyListEntries | pkg/objects/debian.go:308-334 | Terminates on finite trees, and lists exactly the files of the tree in the order of the listings (directories with the base name of their parent are left out), or returns its first error |
| Debian.TreeIsReached | pkg/objects/debian.go:317-331 | Every file that is listed is found through a chain of directories of which none has the base name of the one before |
| Debian.ReachedIsInTree | pkg/objects/debian.go:317-331 | Every file at the end of such a chain is listed, if there is no error |
| Debian.BaseIsLastName | pkg/objects/debian.go:318-318 | The base name of a path is what follows its last slash |
| Debian.FirstErrorWins | pkg/objects/debian.go:318-325 | An error in one entry is the result for the whole directory |
| Debian.TreeLiesBelow | pkg/objects/debian.go:308-334 | All files of the tree of a directory lie below it |
| Debian.ListDistFiles | pkg/objects/debian.go:116-258 | Completes exactly if the release file, all indices and the tree can be read (status 404 stands for an empty tree), and then lists exactly the files that the indices mention, followed by all files of the tree |
| Debian.ListAllFiles | pkg/objects/debian.go:81-113 | Sends every path of these listings once, at its first occurrence and with what the cache holds then, up to the first distribution that cannot be read; exactly with a GPG error if its release file could not be verified |
| Debian.UniqueIsDistinct | pkg/objects/debian.go:91-109 | No path is sent twice, and none is left out |
| Debian.MetadataAfterPool | pkg/objects/debian.go:244-255 | If the roots of the distributions are not nested and no pool file lies below one, every file of the pool of a distribution is sent before every file below its root |
| Debian.PoolPrecedesTree | pkg/objects/debian.go:244-255 | The same for any file below the root that has not been sent before |
| MetadataOrder.VisitArrivesInOrder | pkg/actors/transfer.go:33-50 | With one transferor and no failed attempt, when a file of a listing is tried, those listed before it are on the target side |
| MetadataOrder.LastArrivesLast | pkg/objects/yum.go:174-184 | When the last entry of a listing is tried, all other admitted entries are on the target side |
| MetadataOrder.PackageIsListed | pkg/objects/yum.go:140-184 | In a complete Yum listing every package is among the entries before the last one |
| MetadataOrder.PackagesArriveFirst | pkg/objects/yum.go:174-184 | With one transferor and no failed attempt, when repomd.xml (with the bytes of its last download) is tried after a complete Yum listing, every package that its indices name and no rule excludes is on the target side |

## Left out

- TLS, Keystone login, account cache, `SwiftLocation.Connect`, YAML and validation of the configuration: plumbing over
  libraries that are not part of this model.
- GPG verification and key servers: the result is an arbitrary boolean.
- HTML, XML, Debian control and JSON parsing, decompression, URL parsing: what they yield is an arbitrary input.
- Regular expressions: include, exclude, immutable and Packages patterns are arbitrary predicates or inputs; only the
  one for Content-Range is modelled.
- GitHub releases (`pkg/objects/github.go`): a thin client.
- Segments on the target side and bulk delete inside schwift: a bulk delete may delete any part of what is requested,
  and an upload succeeds or leaves anything behind.
- Logging, StatsD, durations and signals; the interrupt is a flag that rises at most once, at any step.
- `logg.Fatal` in `pkg/objects/file.go:80`, which ends the process: such runs are not in the model.
- Counters of the report and of bytes are unbounded integers; `uint64` overflow is modelled for range requests and
  Content-Range only.
- Expiry times are integers, and HTTP dates are compared through an arbitrary function that reads them.
- `Close` of a response body that fails in `downloader.Close` or `FullReader.Close`.
- The order in which `performCleanup` sorts the objects of its request.
- Downloader.FullReader.Read: assumes for its termination that bodies do not stall and regular parts are not empty,
  because reads that deliver nothing may go on forever otherwise.
- ScrapeTree.ScrapeIsFilter: covers sources that list one directory at a time; `ScrapeListing.ListingYields` covers the
  others, as a set of files.
- Transferors.Transferor.Run: abstracts an attempt to its outcome, which `TransferSteps.TransferIsAttempt` relates to
  the transfer of a single file; the steps of the other actors between its moves are not constructed.
- Transferors.Transferor.Try: takes the outcome of the attempt as an input.
- TransferSteps.TransferIsAttempt: does not cover crashes (`Transfer.PanicsIffSizeUnknown`), after which there is no
  run.
- Debian.ListAllFiles: what the cache holds after each distribution is an input, and so is the fallback from InRelease
  to Release.
- Links.ListEntries: begins with links that have been parsed as URLs.
