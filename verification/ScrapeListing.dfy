/**
 * What is sent for a source that lists all files at once: whatever the attempts have
 * listed, the failed ones included.
 */
module ScrapeListing {
  import opened Base
  import opened Objects
  import opened Scraping
  import opened ScrapeTree
  import opened ScrapeJob

  /** The attempt lists files only, all at once. */
  predicate ListsFiles(w: World, job: JobId, retry: nat) {
    var all := w.source(job).listAllFiles(retry);
    all.AllFiles? && forall e | e in all.entries :: !e.isDirectory
  }

  /** The attempts succeed, in the end. */
  predicate Succeeds(w: World, job: JobId, retry: nat)
    decreases 1 + MAX_RETRY - retry
  {
    && ListsFiles(w, job, retry)
    && var error := w.source(job).listAllFiles(retry).error;
       error.None? || (!error.value.gpg && retry < MAX_RETRY && Succeeds(w, job, retry + 1))
  }

  /** All that the attempts list, from this one to the one that succeeds. */
  function Listed(w: World, job: JobId, retry: nat): set<FileSpec>
    requires Succeeds(w, job, retry)
    decreases 1 + MAX_RETRY - retry
  {
    var all := w.source(job).listAllFiles(retry);
    (set e | e in all.entries) + if all.error.None? then {} else Listed(w, job, retry + 1)
  }

  /** What the attempt that succeeds lists. */
  function Final(w: World, job: JobId, retry: nat): seq<FileSpec>
    requires Succeeds(w, job, retry)
    decreases 1 + MAX_RETRY - retry
  {
    var all := w.source(job).listAllFiles(retry);
    if all.error.None? then all.entries else Final(w, job, retry + 1)
  }

  /** The admitted files among them. */
  function SelectedFrom(w: World, job: JobId, specs: set<FileSpec>): set<File> {
    set e | e in specs && w.admits(job)(e) :: File(job, e)
  }

  lemma {:induction false} NoDirectories(admits: Filter, job: JobId, entries: seq<FileSpec>)
    requires forall e | e in entries :: !e.isDirectory
    ensures DirsIn(admits, job, entries) == []
    decreases entries
  {
    if entries == [] {
    } else {
      assert entries[0] in entries;
      NoDirectories(admits, job, entries[1..]);
    }
  }

  lemma VisitOfListing(w: World, job: JobId, retry: nat)
    requires ListsFiles(w, job, retry)
    ensures var v, all := VisitOf(w, Directory(job, "/", retry)), w.source(job).listAllFiles(retry);
      && v.pushed == [] && v.files == FilesIn(w.admits(job), job, all.entries)
      && v.ending == EndingOf(Directory(job, "/", retry), all.error)
  {
    NoDirectories(w.admits(job), job, w.source(job).listAllFiles(retry).entries);
  }

  lemma SubwalkOfListing(visit: Visitor, rank: Rank, d: Directory)
    requires Finite(visit, rank) && visit(d).pushed == []
    ensures Subwalk(visit, rank, d)
      == [visit(d)] + if visit(d).ending.Postponed? then Subwalk(visit, rank, visit(d).Again()[0]) else []
  {
    assert SubwalkAll(visit, rank, visit(d).pushed) == [];
  }

  lemma SentByFirst(v: Visit, later: seq<Visit>)
    ensures SentBy([v] + later) == multiset(v.files) + SentBy(later)
  {
    assert ([v] + later)[1..] == later;
  }

  /** The visits to the root directory. */
  function Attempts(w: World, job: JobId, retry: nat): seq<Visit>
    requires Succeeds(w, job, retry)
    decreases 1 + MAX_RETRY - retry
  {
    [VisitOf(w, Directory(job, "/", retry))]
      + if w.source(job).listAllFiles(retry).error.None? then [] else Attempts(w, job, retry + 1)
  }

  lemma {:induction false} SubwalkIsAttempts(w: World, rank: Rank, job: JobId, retry: nat)
    requires Finite(VisitorOf(w), rank) && Succeeds(w, job, retry)
    ensures Subwalk(VisitorOf(w), rank, Directory(job, "/", retry)) == Attempts(w, job, retry)
    decreases 1 + MAX_RETRY - retry
  {
    VisitOfListing(w, job, retry);
    SubwalkOfListing(VisitorOf(w), rank, Directory(job, "/", retry));
    if w.source(job).listAllFiles(retry).error.None? {
    } else {
      SubwalkIsAttempts(w, rank, job, retry + 1);
    }
  }

  lemma {:induction false} AttemptsAreComplete(w: World, job: JobId, retry: nat)
    requires Succeeds(w, job, retry)
    ensures Complete(Attempts(w, job, retry))
    decreases 1 + MAX_RETRY - retry
  {
    VisitOfListing(w, job, retry);
    if w.source(job).listAllFiles(retry).error.None? {
    } else {
      AttemptsAreComplete(w, job, retry + 1);
    }
  }

  lemma {:induction false} AttemptsSend(w: World, job: JobId, retry: nat, f: File)
    requires Succeeds(w, job, retry)
    ensures f in SentBy(Attempts(w, job, retry))
      <==> f.job == job && f.spec in Listed(w, job, retry) && w.admits(job)(f.spec)
    decreases 1 + MAX_RETRY - retry
  {
    var all, v := w.source(job).listAllFiles(retry), VisitOf(w, Directory(job, "/", retry));
    VisitOfListing(w, job, retry);
    FilesInContains(w.admits(job), job, all.entries, f);
    assert f in multiset(v.files) <==> f in v.files;
    if all.error.None? {
      SentByFirst(v, []);
    } else {
      SentByFirst(v, Attempts(w, job, retry + 1));
      AttemptsSend(w, job, retry + 1, f);
    }
  }

  /** A source that lists all files at once, in the end, yields the admitted ones of all attempts. */
  lemma ListingYields(w: World, rank: Rank, job: JobId)
    requires Finite(VisitorOf(w), rank) && Succeeds(w, job, 0)
    ensures Yields(w, rank, job, SelectedFrom(w, job, Listed(w, job, 0)))
  {
    SubwalkIsAttempts(w, rank, job, 0);
    AttemptsAreComplete(w, job, 0);
    forall f: File
      ensures f in SentBy(Attempts(w, job, 0)) <==> f in SelectedFrom(w, job, Listed(w, job, 0))
    {
      AttemptsSend(w, job, 0, f);
    }
  }

  /** Failed attempts list a part of what is listed in the end. */
  predicate FailuresArePartial(w: World, job: JobId, retry: nat, entries: seq<FileSpec>)
    requires Succeeds(w, job, retry)
    decreases 1 + MAX_RETRY - retry
  {
    var all := w.source(job).listAllFiles(retry);
    && (forall e | e in all.entries :: e in entries)
    && (all.error.Some? ==> FailuresArePartial(w, job, retry + 1, entries))
  }

  lemma {:induction false} PartialFailuresAddNothing(w: World, job: JobId, retry: nat, entries: seq<FileSpec>)
    requires Succeeds(w, job, retry) && FailuresArePartial(w, job, retry, entries) && Final(w, job, retry) == entries
    ensures Listed(w, job, retry) == set e | e in entries
    decreases 1 + MAX_RETRY - retry
  {
    if w.source(job).listAllFiles(retry).error.None? {
    } else {
      PartialFailuresAddNothing(w, job, retry + 1, entries);
    }
  }

  /** Then the admitted files of the final listing are what is sent. */
  lemma FinalListingYields(w: World, rank: Rank, job: JobId)
    requires Finite(VisitorOf(w), rank) && Succeeds(w, job, 0) && FailuresArePartial(w, job, 0, Final(w, job, 0))
    ensures Yields(w, rank, job, SelectedFrom(w, job, set e | e in Final(w, job, 0)))
  {
    ListingYields(w, rank, job);
    PartialFailuresAddNothing(w, job, 0, Final(w, job, 0));
  }
}
