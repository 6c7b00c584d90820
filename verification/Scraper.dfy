/** The scraper as the source has it: a loop over a stack, sending into two channels. */
module Scraper {
  import opened Base
  import opened Objects
  import opened Matching
  import opened Scraping
  import opened ScrapeTree

  /** The matchers of the jobs, as the filter of module `Scraping`. */
  ghost predicate FiltersWith(w: World, matchers: JobId -> Matcher) {
    forall job: JobId, spec: FileSpec :: w.admits(job)(spec) <==> AdmitsSpec(matchers(job), spec)
  }

  /** With rules of the source's kind, the walk leaves out nothing that would be admitted. */
  lemma FiltersArePrefixClosed(w: World, matchers: JobId -> Matcher, job: JobId)
    requires FiltersWith(w, matchers)
    ensures PrefixClosed(w.admits(job))
  {
    forall dir: FileSpec, below: FileSpec |
      dir.isDirectory && dir.path + "/" <= below.path && w.admits(job)(below)
      ensures w.admits(job)(dir)
    {
      NothingBelowExcluded(matchers(job), dir, below);
    }
  }

  function FilesOf(visits: seq<Visit>): seq<File> {
    if visits == [] then [] else FilesOf(visits[..|visits| - 1]) + visits[|visits| - 1].files
  }

  function EventsOf(visits: seq<Visit>): seq<ReportEvent> {
    if visits == [] then [] else EventsOf(visits[..|visits| - 1]) + EventOf(visits[|visits| - 1].ending)
  }

  function EventOf(ending: Ending): seq<ReportEvent> {
    match ending
    case Done => [DirectoryEvent(false)]
    case JobSkipped => [JobEvent(true)]
    case GaveUp => [DirectoryEvent(true)]
    case Postponed => []
  }

  function IncompleteIn(visits: seq<Visit>): set<JobId> {
    set v | v in visits && v.ending in {GaveUp, JobSkipped} :: v.dir.job
  }

  lemma Snoc(visits: seq<Visit>, v: Visit)
    ensures FilesOf(visits + [v]) == FilesOf(visits) + v.files
    ensures EventsOf(visits + [v]) == EventsOf(visits) + EventOf(v.ending)
    ensures IncompleteIn(visits + [v]) == IncompleteIn(visits)
      + if v.ending in {GaveUp, JobSkipped} then {v.dir.job} else {}
  {
    assert (visits + [v])[..|visits|] == visits;
  }

  /** `visits` is the part of `walk` before iteration `interruptAt`. */
  predicate InterruptedAt(interruptAt: Option<nat>, visits: seq<Visit>, walk: seq<Visit>) {
    visits <= walk && |visits| == if interruptAt.Some? then Min(interruptAt.value, |walk|) else |walk|
  }

  class Scraper {
    const matchers: JobId -> Matcher
    const sources: JobId -> Source
    const jobs: nat
    var output: seq<File>
    var outputClosed: bool
    var report: seq<ReportEvent>
    /** The jobs whose `IsScrapingIncomplete` has been set. */
    var incomplete: set<JobId>

    constructor (matchers: JobId -> Matcher, sources: JobId -> Source, jobs: nat)
      ensures this.matchers == matchers && this.sources == sources && this.jobs == jobs
      ensures output == [] && report == [] && incomplete == {} && !outputClosed
    {
      this.matchers, this.sources, this.jobs := matchers, sources, jobs;
      output, report, incomplete, outputClosed := [], [], {}, false;
    }

    /** `job.Matcher.CheckFile(fs)` */
    method IsAdmitted(ghost w: World, job: JobId, fs: FileSpec) returns (admitted: bool)
      requires FiltersWith(w, matchers)
      ensures admitted == w.admits(job)(fs)
    {
      var excludeReason := CheckFile(matchers(job), fs);
      admitted := excludeReason.None?;
    }

    /** `handleFileSpec`, for all entries of a listing. */
    method HandleEntries(ghost w: World, job: JobId, entries: seq<FileSpec>, stack: seq<Directory>)
      returns (newStack: seq<Directory>)
      requires FiltersWith(w, matchers)
      modifies this`output
      ensures output == old(output) + FilesIn(w.admits(job), job, entries)
      ensures newStack == stack + DirsIn(w.admits(job), job, entries)
    {
      ghost var admits := w.admits(job);
      newStack := stack;
      for i := 0 to |entries|
        invariant output == old(output) + FilesIn(admits, job, entries[..i])
        invariant newStack == stack + DirsIn(admits, job, entries[..i])
      {
        var fs := entries[i];
        assert entries[..i + 1] == entries[..i] + [fs] && [fs][1..] == [];
        FilesInConcat(admits, job, entries[..i], [fs]);
        DirsInConcat(admits, job, entries[..i], [fs]);
        var admitted := IsAdmitted(w, job, fs);
        if admitted {
          if fs.isDirectory {
            newStack := newStack + [Directory(job, fs.path, 0)];
          } else {
            output := output + [File(job, fs)];
          }
        }
      }
      assert entries[..|entries|] == entries;
    }

    /** The top of the stack is listed, and its entries are handled. */
    method ListAndHandle(ghost w: World, directory: Directory, stack: seq<Directory>)
      returns (newStack: seq<Directory>, err: Option<ListError>)
      requires FiltersWith(w, matchers) && w.source == sources
      modifies this`output
      ensures output == old(output) + VisitOf(w, directory).files
      ensures newStack == stack + VisitOf(w, directory).pushed
      ensures err == ListDirectory(w, directory).error
    {
      var source := sources(directory.job);
      if directory.path == "/" {
        var all := source.listAllFiles(directory.retryCounter);
        if all.AllFiles? {
          newStack := HandleEntries(w, directory.job, all.entries, stack);
          return newStack, all.error;
        }
      }
      var listing := source.listEntries(directory.path, directory.retryCounter);
      if listing.error.None? {
        newStack := HandleEntries(w, directory.job, listing.entries, stack);
        return newStack, None;
      }
      return stack, listing.error;
    }

    /** The loop body of `Run`, for a directory that has been taken from the stack. */
    method Process(ghost w: World, directory: Directory, stack: seq<Directory>) returns (newStack: seq<Directory>)
      requires FiltersWith(w, matchers) && w.source == sources
      modifies this`output, this`report, this`incomplete
      ensures var v := VisitOf(w, directory);
        && newStack == v.Again() + (stack + v.pushed)
        && output == old(output) + v.files
        && report == old(report) + EventOf(v.ending)
        && incomplete == old(incomplete) + if v.ending in {GaveUp, JobSkipped} then {directory.job} else {}
    {
      var err;
      newStack, err := ListAndHandle(w, directory, stack);
      if err.Some? {
        if err.value.gpg {
          incomplete := incomplete + {directory.job};
          report := report + [JobEvent(true)];
          return;
        }
        if directory.retryCounter >= MAX_RETRY {
          incomplete := incomplete + {directory.job};
          report := report + [DirectoryEvent(true)];
          return;
        }
        return [directory.(retryCounter := directory.retryCounter + 1)] + newStack;
      }
      report := report + [DirectoryEvent(false)];
    }

    /** The stack with which `Run` begins. */
    method PushRoots() returns (stack: seq<Directory>)
      ensures stack == Roots(0, jobs)
    {
      stack := [];
      for idx := 0 to jobs
        invariant stack == Roots(jobs - idx, jobs)
      {
        stack := stack + [Directory(jobs - idx - 1, "/", 0)];
      }
    }

    /**
     * `Scraper.Run`, when the context is found done in iteration `interruptAt` (if any).
     * It makes the visits of `Walk`, from the first one up to the interruption.
     */
    method Run(interruptAt: Option<nat>, ghost w: World, ghost rank: Rank) returns (ghost visits: seq<Visit>)
      requires FiltersWith(w, matchers) && w.source == sources && Ranked(w, rank)
      requires output == [] && report == [] && incomplete == {}
      modifies this
      ensures outputClosed && Finite(VisitorOf(w), rank)
      ensures InterruptedAt(interruptAt, visits, Walk(VisitorOf(w), rank, Roots(0, jobs)))
      ensures output == FilesOf(visits) && report == EventsOf(visits) && incomplete == IncompleteIn(visits)
    {
      VisitorIsFinite(w, rank);
      var stack := PushRoots();
      visits := [];
      ghost var toDo := Walk(VisitorOf(w), rank, stack);
      ghost var walk := toDo;
      var iteration := 0;
      while stack != []
        invariant iteration == |visits| && (interruptAt.Some? ==> iteration <= interruptAt.value)
        invariant toDo == Walk(VisitorOf(w), rank, stack) && walk == visits + toDo
        invariant output == FilesOf(visits) && report == EventsOf(visits) && incomplete == IncompleteIn(visits)
        decreases |toDo|
      {
        if interruptAt.Some? && interruptAt.value == iteration {
          break;
        }
        WalkUnfolds(VisitorOf(w), rank, stack);
        var directory := stack[|stack| - 1];
        ghost var v := VisitOf(w, directory);
        toDo := Walk(VisitorOf(w), rank, After(VisitorOf(w), stack));
        stack := Process(w, directory, stack[..|stack| - 1]);
        Snoc(visits, v);
        Assoc(visits, [v], toDo);
        visits := visits + [v];
        iteration := iteration + 1;
      }
      outputClosed := true;
    }
  }
}
