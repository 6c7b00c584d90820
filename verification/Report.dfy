/** The tally of report events and the exit code. */
module Reports {
  import opened Objects

  datatype Stats = Stats(
    directoriesScanned: nat,
    directoriesFailed: nat,
    filesFound: nat,
    filesFailed: nat,
    filesTransferred: nat,
    filesCleanedUp: nat,
    bytesTransferred: nat,
    jobsSkipped: nat)

  const NOTHING := Stats(0, 0, 0, 0, 0, 0, 0, 0)

  /** How many events have the property. */
  function CountOf(events: seq<ReportEvent>, p: ReportEvent -> bool): nat {
    if events == [] then 0 else (if p(events[0]) then 1 else 0) + CountOf(events[1..], p)
  }

  function Bytes(events: seq<ReportEvent>): nat {
    if events == [] then 0 else
    (if events[0].FileEvent? && events[0].result.Success? then events[0].bytes else 0) + Bytes(events[1..])
  }

  function CleanedUp(events: seq<ReportEvent>): nat {
    if events == [] then 0 else (if events[0].CleanupEvent? then events[0].objects else 0) + CleanedUp(events[1..])
  }

  lemma {:induction false} CountConcat(a: seq<ReportEvent>, b: seq<ReportEvent>, p: ReportEvent -> bool)
    ensures CountOf(a + b, p) == CountOf(a, p) + CountOf(b, p)
    decreases a
  {
    if a == [] {
      assert a + b == b;
    } else {
      assert (a + b)[1..] == a[1..] + b;
      CountConcat(a[1..], b, p);
    }
  }

  lemma CountSnoc(events: seq<ReportEvent>, e: ReportEvent, p: ReportEvent -> bool)
    ensures CountOf(events + [e], p) == CountOf(events, p) + if p(e) then 1 else 0
  {
    CountConcat(events, [e], p);
    assert [e][1..] == [];
  }

  lemma {:induction false} AmountsSnoc(events: seq<ReportEvent>, e: ReportEvent)
    ensures Bytes(events + [e]) == Bytes(events) + if e.FileEvent? && e.result.Success? then e.bytes else 0
    ensures CleanedUp(events + [e]) == CleanedUp(events) + if e.CleanupEvent? then e.objects else 0
    decreases events
  {
    if events == [] {
      assert events + [e] == [e] && [e][1..] == [];
    } else {
      assert (events + [e])[1..] == events[1..] + [e];
      AmountsSnoc(events[1..], e);
    }
  }

  lemma {:induction false} CountIsPositive(events: seq<ReportEvent>, p: ReportEvent -> bool)
    ensures CountOf(events, p) > 0 <==> exists e :: e in events && p(e)
    decreases events
  {
    if events == [] {
    } else {
      CountIsPositive(events[1..], p);
      assert forall e :: e in events <==> e == events[0] || e in events[1..];
    }
  }

  predicate IsDirectory(e: ReportEvent) { e.DirectoryEvent? }

  predicate IsFailedDirectory(e: ReportEvent) { e.DirectoryEvent? && e.failed }

  predicate IsFile(e: ReportEvent) { e.FileEvent? }

  predicate IsFailedFile(e: ReportEvent) { e.FileEvent? && e.result.Failed? }

  predicate IsTransferredFile(e: ReportEvent) { e.FileEvent? && e.result.Success? }

  predicate IsSkippedJob(e: ReportEvent) { e.JobEvent? && e.skipped }

  /** What the tally should be. */
  predicate Tallies(stats: Stats, events: seq<ReportEvent>) {
    && stats.directoriesScanned == CountOf(events, IsDirectory)
    && stats.directoriesFailed == CountOf(events, IsFailedDirectory)
    && stats.filesFound == CountOf(events, IsFile)
    && stats.filesFailed == CountOf(events, IsFailedFile)
    && stats.filesTransferred == CountOf(events, IsTransferredFile)
    && stats.filesCleanedUp == CleanedUp(events)
    && stats.bytesTransferred == Bytes(events)
    && stats.jobsSkipped == CountOf(events, IsSkippedJob)
  }

  /** A file or a directory has failed. */
  predicate Fails(events: seq<ReportEvent>) {
    exists e :: e in events && (IsFailedFile(e) || IsFailedDirectory(e))
  }

  // ----- the actor -----

  /** One event in the statistics. */
  function Add(stats: Stats, mark: ReportEvent): Stats {
    match mark
    case DirectoryEvent(failed) =>
      stats.(directoriesScanned := stats.directoriesScanned + 1,
             directoriesFailed := stats.directoriesFailed + if failed then 1 else 0)
    case FileEvent(result, bytes) =>
      stats.(filesFound := stats.filesFound + 1,
             filesFailed := stats.filesFailed + if result.Failed? then 1 else 0,
             filesTransferred := stats.filesTransferred + if result.Success? then 1 else 0,
             bytesTransferred := stats.bytesTransferred + if result.Success? then bytes else 0)
    case CleanupEvent(objects) => stats.(filesCleanedUp := stats.filesCleanedUp + objects)
    case JobEvent(skipped) => stats.(jobsSkipped := stats.jobsSkipped + if skipped then 1 else 0)
  }

  function ExitCodeOf(stats: Stats): nat {
    if stats.filesFailed > 0 || stats.directoriesFailed > 0 then 1 else 0
  }

  lemma AddTallies(stats: Stats, events: seq<ReportEvent>, mark: ReportEvent)
    requires Tallies(stats, events)
    ensures Tallies(Add(stats, mark), events + [mark])
  {
    Snoc(events, mark);
  }

  /** A skipped job is no failure. */
  lemma ExitCodeIsFailure(stats: Stats, events: seq<ReportEvent>)
    requires Tallies(stats, events)
    ensures ExitCodeOf(stats) == if Fails(events) then 1 else 0
  {
    CountIsPositive(events, IsFailedFile);
    CountIsPositive(events, IsFailedDirectory);
  }

  class Report {
    var stats: Stats
    var exitCode: nat

    constructor ()
      ensures stats == NOTHING
    {
      stats, exitCode := NOTHING, 0;
    }

    /** The loop body of `Run`. */
    method Mark(mark: ReportEvent)
      modifies this`stats
      ensures stats == Add(old(stats), mark)
    {
      match mark {
        case DirectoryEvent(failed) =>
          stats := stats.(directoriesScanned := stats.directoriesScanned + 1);
          if failed {
            stats := stats.(directoriesFailed := stats.directoriesFailed + 1);
          }
        case FileEvent(result, bytes) =>
          stats := stats.(filesFound := stats.filesFound + 1);
          match result {
            case Success =>
              stats := stats.(filesTransferred := stats.filesTransferred + 1);
              stats := stats.(bytesTransferred := stats.bytesTransferred + bytes);
            case Failed => stats := stats.(filesFailed := stats.filesFailed + 1);
            case Skipped =>
          }
        case CleanupEvent(objects) => stats := stats.(filesCleanedUp := stats.filesCleanedUp + objects);
        case JobEvent(skipped) =>
          if skipped {
            stats := stats.(jobsSkipped := stats.jobsSkipped + 1);
          }
      }
    }

    /** `Report.Run` over everything that comes through its channel. */
    method Run(input: seq<ReportEvent>)
      requires stats == NOTHING
      modifies this
      ensures Tallies(stats, input)
      ensures exitCode == if Fails(input) then 1 else 0
    {
      for i := 0 to |input|
        invariant Tallies(stats, input[..i])
      {
        AddTallies(stats, input[..i], input[i]);
        Mark(input[i]);
        assert input[..i] + [input[i]] == input[..i + 1];
      }
      assert input[..|input|] == input;
      ExitCodeIsFailure(stats, input);
      if stats.filesFailed > 0 || stats.directoriesFailed > 0 {
        exitCode := 1;
      } else {
        exitCode := 0;
      }
    }
  }

  lemma Snoc(events: seq<ReportEvent>, e: ReportEvent)
    ensures CountOf(events + [e], IsDirectory) == CountOf(events, IsDirectory) + if IsDirectory(e) then 1 else 0
    ensures CountOf(events + [e], IsFailedDirectory)
      == CountOf(events, IsFailedDirectory) + if IsFailedDirectory(e) then 1 else 0
    ensures CountOf(events + [e], IsFile) == CountOf(events, IsFile) + if IsFile(e) then 1 else 0
    ensures CountOf(events + [e], IsFailedFile) == CountOf(events, IsFailedFile) + if IsFailedFile(e) then 1 else 0
    ensures CountOf(events + [e], IsTransferredFile)
      == CountOf(events, IsTransferredFile) + if IsTransferredFile(e) then 1 else 0
    ensures CountOf(events + [e], IsSkippedJob) == CountOf(events, IsSkippedJob) + if IsSkippedJob(e) then 1 else 0
    ensures Bytes(events + [e]) == Bytes(events) + if IsTransferredFile(e) then e.bytes else 0
    ensures CleanedUp(events + [e]) == CleanedUp(events) + if e.CleanupEvent? then e.objects else 0
  {
    CountSnoc(events, e, IsDirectory);
    CountSnoc(events, e, IsFailedDirectory);
    CountSnoc(events, e, IsFile);
    CountSnoc(events, e, IsFailedFile);
    CountSnoc(events, e, IsTransferredFile);
    CountSnoc(events, e, IsSkippedJob);
    AmountsSnoc(events, e);
  }
}
