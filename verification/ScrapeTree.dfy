/**
 * What is sent for a source that lists one directory at a time: the pruned walk, which
 * never enters an excluded directory and may try a directory three times, sends the
 * same files as a filter over the complete tree.
 */
module ScrapeTree {
  import opened Base
  import opened Objects
  import opened Scraping
  import opened ScrapeOrder

  /** A directory that is found in another one has a smaller rank: the sources are finite trees. */
  ghost predicate Ranked(w: World, rank: Rank) {
    forall d: Directory, e: FileSpec :: e in ListDirectory(w, d).entries && e.isDirectory ==>
      rank(d.job, e.path) < rank(d.job, d.path)
  }

  ghost function VisitorOf(w: World): Visitor {
    (d: Directory) => VisitOf(w, d)
  }

  lemma VisitorIsFinite(w: World, rank: Rank)
    requires Ranked(w, rank)
    ensures Finite(VisitorOf(w), rank)
  {
    forall d: Directory
      ensures FiniteAt(VisitorOf(w)(d), d, rank)
    {
      DirsComeFromEntries(w.admits(d.job), d.job, ListDirectory(w, d).entries);
    }
  }

  // ----- the complete tree -----

  ghost predicate ListsByDirectory(w: World, job: JobId) {
    forall retry: nat :: w.source(job).listAllFiles(retry).NotSupported?
  }

  /** What the attempts to list a directory come to. */
  ghost function Contents(w: World, d: Directory): Option<seq<FileSpec>>
    decreases RetriesLeft(d)
  {
    var l := ListDirectory(w, d);
    if l.error.None? then Some(l.entries)
    else if EndingOf(d, l.error).Postponed? then Contents(w, d.(retryCounter := d.retryCounter + 1))
    else None
  }

  predicate InDirectory(dir: string, path: string) {
    dir == "/" || dir + "/" <= path
  }

  /** Every directory of the tree is listed in one of its attempts, and entries lie below their directory. */
  ghost predicate TreeIsListed(w: World, rank: Rank, job: JobId, path: string)
    decreases rank(job, path), 1, 0
  {
    var c := Contents(w, Directory(job, path, 0));
    c.Some? && EntriesAreListed(w, rank, job, path, c.value)
  }

  ghost predicate EntriesAreListed(w: World, rank: Rank, job: JobId, path: string, entries: seq<FileSpec>)
    decreases rank(job, path), 0, |entries|
  {
    entries != [] ==>
      var e := entries[0];
      && InDirectory(path, e.path) && e.path != "/"
      && (e.isDirectory ==> rank(job, e.path) < rank(job, path) && TreeIsListed(w, rank, job, e.path))
      && EntriesAreListed(w, rank, job, path, entries[1..])
  }

  /** All files of the tree, admitted or not. */
  ghost function FlatFiles(w: World, rank: Rank, job: JobId, path: string): seq<FileSpec>
    requires TreeIsListed(w, rank, job, path)
    decreases rank(job, path), 1, 0
  {
    FlatEntries(w, rank, job, path, Contents(w, Directory(job, path, 0)).value)
  }

  ghost function FlatEntries(w: World, rank: Rank, job: JobId, path: string, entries: seq<FileSpec>): seq<FileSpec>
    requires EntriesAreListed(w, rank, job, path, entries)
    decreases rank(job, path), 0, |entries|
  {
    if entries == [] then [] else
    (if entries[0].isDirectory then FlatFiles(w, rank, job, entries[0].path) else [entries[0]])
      + FlatEntries(w, rank, job, path, entries[1..])
  }

  lemma {:induction false} FlatFilesLieBelow(w: World, rank: Rank, job: JobId, path: string)
    requires TreeIsListed(w, rank, job, path)
    ensures forall f | f in FlatFiles(w, rank, job, path) :: !f.isDirectory && InDirectory(path, f.path)
    decreases rank(job, path), 1, 0
  {
    FlatEntriesLieBelow(w, rank, job, path, Contents(w, Directory(job, path, 0)).value);
  }

  lemma {:induction false} FlatEntriesLieBelow(w: World, rank: Rank, job: JobId, path: string, entries: seq<FileSpec>)
    requires EntriesAreListed(w, rank, job, path, entries)
    ensures forall f | f in FlatEntries(w, rank, job, path, entries) :: !f.isDirectory && InDirectory(path, f.path)
    decreases rank(job, path), 0, |entries|
  {
    if entries == [] {
    } else {
      FlatEntriesLieBelow(w, rank, job, path, entries[1..]);
      if entries[0].isDirectory {
        FlatFilesLieBelow(w, rank, job, entries[0].path);
      }
    }
  }

  // ----- the pruned walk -----

  /** Nothing below a directory that is not admitted is admitted. */
  ghost predicate PrefixClosed(admits: Filter) {
    forall dir: FileSpec, below: FileSpec ::
      dir.isDirectory && dir.path + "/" <= below.path && admits(below) ==> admits(dir)
  }

  function SentBy(visits: seq<Visit>): multiset<File> {
    if visits == [] then multiset{} else multiset(visits[0].files) + SentBy(visits[1..])
  }

  lemma {:induction false} SentByConcat(a: seq<Visit>, b: seq<Visit>)
    ensures SentBy(a + b) == SentBy(a) + SentBy(b)
    decreases a
  {
    if a == [] {
      assert a + b == b;
    } else {
      assert (a + b)[1..] == a[1..] + b;
      SentByConcat(a[1..], b);
    }
  }

  lemma {:induction false} FilesInConcat(admits: Filter, job: JobId, a: seq<FileSpec>, b: seq<FileSpec>)
    ensures FilesIn(admits, job, a + b) == FilesIn(admits, job, a) + FilesIn(admits, job, b)
    decreases a
  {
    if a == [] {
      assert a + b == b;
    } else {
      assert (a + b)[1..] == a[1..] + b;
      FilesInConcat(admits, job, a[1..], b);
    }
  }

  lemma {:induction false} DirsInConcat(admits: Filter, job: JobId, a: seq<FileSpec>, b: seq<FileSpec>)
    ensures DirsIn(admits, job, a + b) == DirsIn(admits, job, a) + DirsIn(admits, job, b)
    decreases a
  {
    if a == [] {
      assert a + b == b;
    } else {
      assert (a + b)[1..] == a[1..] + b;
      DirsInConcat(admits, job, a[1..], b);
    }
  }

  lemma {:induction false} NoneAdmitted(admits: Filter, job: JobId, specs: seq<FileSpec>)
    requires forall f | f in specs :: !admits(f)
    ensures FilesIn(admits, job, specs) == []
    decreases specs
  {
    if specs == [] {
    } else {
      assert specs[0] in specs;
      NoneAdmitted(admits, job, specs[1..]);
    }
  }

  lemma SubwalkSends(visit: Visitor, rank: Rank, d: Directory)
    requires Finite(visit, rank)
    ensures SentBy(Subwalk(visit, rank, d)) == multiset(visit(d).files)
      + SentBy(SubwalkAll(visit, rank, visit(d).pushed)) + SentBy(SubwalkAll(visit, rank, visit(d).Again()))
  {
    var v := visit(d);
    SubwalkUnfolds(visit, rank, d);
    var pushed, again := SubwalkAll(visit, rank, v.pushed), SubwalkAll(visit, rank, v.Again());
    SentByConcat([v] + pushed, again);
    SentByConcat([v], pushed);
    assert SentBy([v]) == multiset(v.files);
  }

  lemma StackSends(visit: Visitor, rank: Rank, d: Directory, rest: seq<Directory>)
    requires Finite(visit, rank)
    ensures SentBy(SubwalkAll(visit, rank, [d] + rest))
      == SentBy(Subwalk(visit, rank, d)) + SentBy(SubwalkAll(visit, rank, rest))
  {
    SubwalkAllConcat(visit, rank, [d], rest);
    SubwalkOfOne(visit, rank, d);
    SentByConcat(SubwalkAll(visit, rank, rest), Subwalk(visit, rank, d));
  }

  /** What the walk sends for one entry of a listing, and for all of them. */
  ghost function SentForEntry(w: World, rank: Rank, job: JobId, e: FileSpec): multiset<File>
    requires Finite(VisitorOf(w), rank)
  {
    if !w.admits(job)(e) then multiset{}
    else if e.isDirectory then SentBy(Subwalk(VisitorOf(w), rank, Directory(job, e.path, 0)))
    else multiset{File(job, e)}
  }

  ghost function SentForEntries(w: World, rank: Rank, job: JobId, entries: seq<FileSpec>): multiset<File>
    requires Finite(VisitorOf(w), rank)
  {
    multiset(FilesIn(w.admits(job), job, entries))
      + SentBy(SubwalkAll(VisitorOf(w), rank, DirsIn(w.admits(job), job, entries)))
  }

  lemma FinalAttemptSends(visit: Visitor, rank: Rank, d: Directory)
    requires Finite(visit, rank) && !visit(d).ending.Postponed?
    ensures SentBy(Subwalk(visit, rank, d))
      == multiset(visit(d).files) + SentBy(SubwalkAll(visit, rank, visit(d).pushed))
  {
    SubwalkSends(visit, rank, d);
    assert visit(d).Again() == [];
  }

  lemma FailedAttemptSends(visit: Visitor, rank: Rank, d: Directory)
    requires Finite(visit, rank) && visit(d).ending.Postponed? && visit(d).files == [] && visit(d).pushed == []
    ensures SentBy(Subwalk(visit, rank, d)) == SentBy(Subwalk(visit, rank, visit(d).Again()[0]))
  {
    SubwalkSends(visit, rank, d);
    SubwalkOfOne(visit, rank, visit(d).Again()[0]);
  }

  /** A visit to a directory of a source that lists one directory at a time. */
  lemma VisitByDirectory(w: World, d: Directory)
    requires ListsByDirectory(w, d.job)
    ensures var v, l := VisitOf(w, d), ListDirectory(w, d);
      && v.ending == EndingOf(d, l.error)
      && (l.error.Some? ==> v.files == [] && v.pushed == [])
      && (l.error.None? ==>
            && v.files == FilesIn(w.admits(d.job), d.job, l.entries)
            && v.pushed == DirsIn(w.admits(d.job), d.job, l.entries))
  {
    assert w.source(d.job).listAllFiles(d.retryCounter).NotSupported?;
  }

  /** The attempts to list a directory, until one is not postponed. */
  ghost function LastAttempt(visit: Visitor, rank: Rank, d: Directory): (v: Visit)
    requires Finite(visit, rank)
    ensures !v.ending.Postponed? && v.dir.job == d.job && v.dir.path == d.path
    decreases RetriesLeft(d)
  {
    var v := visit(d);
    assert FiniteAt(v, d, rank);
    if v.ending.Postponed? then LastAttempt(visit, rank, v.Again()[0]) else v
  }

  /** Attempts that come to nothing do not matter; the last one decides. */
  lemma {:induction false} AttemptsDoNotMatter(visit: Visitor, rank: Rank, d: Directory)
    requires Finite(visit, rank)
    requires forall x: Directory :: x.job == d.job && visit(x).ending.Postponed? ==> Fruitless(visit(x))
    ensures var v := LastAttempt(visit, rank, d);
      SentBy(Subwalk(visit, rank, d)) == multiset(v.files) + SentBy(SubwalkAll(visit, rank, v.pushed))
    decreases RetriesLeft(d)
  {
    assert FiniteAt(visit(d), d, rank);
    if visit(d).ending.Postponed? {
      FailedAttemptSends(visit, rank, d);
      AttemptsDoNotMatter(visit, rank, visit(d).Again()[0]);
    } else {
      FinalAttemptSends(visit, rank, d);
    }
  }

  predicate Fruitless(v: Visit) {
    v.files == [] && v.pushed == []
  }

  /** The last attempt gets the contents of the directory. */
  lemma {:induction false} LastAttemptLists(w: World, rank: Rank, d: Directory)
    requires Finite(VisitorOf(w), rank) && ListsByDirectory(w, d.job) && Contents(w, d).Some?
    ensures var v, entries := LastAttempt(VisitorOf(w), rank, d), Contents(w, d).value;
      && v.files == FilesIn(w.admits(d.job), d.job, entries)
      && v.pushed == DirsIn(w.admits(d.job), d.job, entries)
    decreases RetriesLeft(d)
  {
    VisitByDirectory(w, d);
    if ListDirectory(w, d).error.None? {
    } else {
      LastAttemptLists(w, rank, d.(retryCounter := d.retryCounter + 1));
    }
  }

  lemma ContentsAreSent(w: World, rank: Rank, d: Directory)
    requires Finite(VisitorOf(w), rank) && ListsByDirectory(w, d.job) && Contents(w, d).Some?
    ensures SentBy(Subwalk(VisitorOf(w), rank, d)) == SentForEntries(w, rank, d.job, Contents(w, d).value)
  {
    forall x: Directory | x.job == d.job && VisitorOf(w)(x).ending.Postponed?
      ensures Fruitless(VisitorOf(w)(x))
    {
      VisitByDirectory(w, x);
    }
    AttemptsDoNotMatter(VisitorOf(w), rank, d);
    LastAttemptLists(w, rank, d);
  }

  /** The pruned walk of a directory sends the files of the complete tree that are admitted. */
  lemma {:induction false} PrunedWalkIsFilter(w: World, rank: Rank, job: JobId, path: string)
    requires Finite(VisitorOf(w), rank)
    requires ListsByDirectory(w, job) && PrefixClosed(w.admits(job)) && TreeIsListed(w, rank, job, path)
    ensures SentBy(Subwalk(VisitorOf(w), rank, Directory(job, path, 0)))
      == Kept(w.admits(job), job, FlatFiles(w, rank, job, path))
    decreases rank(job, path), 1, 0
  {
    ContentsAreSent(w, rank, Directory(job, path, 0));
    PrunedEntriesAreFilter(w, rank, job, path, Contents(w, Directory(job, path, 0)).value);
  }

  lemma SentForFirst(w: World, rank: Rank, job: JobId, entries: seq<FileSpec>)
    requires Finite(VisitorOf(w), rank) && entries != []
    ensures SentForEntries(w, rank, job, entries)
      == SentForEntry(w, rank, job, entries[0]) + SentForEntries(w, rank, job, entries[1..])
  {
    var admits, e, rest := w.admits(job), entries[0], entries[1..];
    var dirs := DirsIn(admits, job, rest);
    if admits(e) && e.isDirectory {
      StackSends(VisitorOf(w), rank, Directory(job, e.path, 0), dirs);
    } else {
      assert [] + dirs == dirs;
    }
  }

  ghost function Kept(admits: Filter, job: JobId, specs: seq<FileSpec>): multiset<File> {
    multiset(FilesIn(admits, job, specs))
  }

  lemma KeptConcat(admits: Filter, job: JobId, a: seq<FileSpec>, b: seq<FileSpec>)
    ensures Kept(admits, job, a + b) == Kept(admits, job, a) + Kept(admits, job, b)
  {
    FilesInConcat(admits, job, a, b);
  }

  lemma {:induction false} PrunedEntriesAreFilter(w: World, rank: Rank, job: JobId, path: string,
                                                  entries: seq<FileSpec>)
    requires Finite(VisitorOf(w), rank)
    requires ListsByDirectory(w, job) && PrefixClosed(w.admits(job)) && EntriesAreListed(w, rank, job, path, entries)
    ensures SentForEntries(w, rank, job, entries)
      == Kept(w.admits(job), job, FlatEntries(w, rank, job, path, entries))
    decreases rank(job, path), 0, |entries|
  {
    if entries != [] {
      var e, rest := entries[0], FlatEntries(w, rank, job, path, entries[1..]);
      SentForFirst(w, rank, job, entries);
      PrunedEntriesAreFilter(w, rank, job, path, entries[1..]);
      if e.isDirectory {
        KeptConcat(w.admits(job), job, FlatFiles(w, rank, job, e.path), rest);
        if w.admits(job)(e) {
          PrunedWalkIsFilter(w, rank, job, e.path);
        } else {
          NothingAdmittedBelow(w, rank, job, e);
        }
      } else {
        KeptConcat(w.admits(job), job, [e], rest);
        assert Kept(w.admits(job), job, [e]) == SentForEntry(w, rank, job, e);
      }
    } else {
      assert DirsIn(w.admits(job), job, entries) == [];
    }
  }

  lemma NothingAdmittedBelow(w: World, rank: Rank, job: JobId, e: FileSpec)
    requires e.isDirectory && TreeIsListed(w, rank, job, e.path) && e.path != "/" && PrefixClosed(w.admits(job))
    requires !w.admits(job)(e)
    ensures Kept(w.admits(job), job, FlatFiles(w, rank, job, e.path)) == multiset{}
  {
    FlatFilesLieBelow(w, rank, job, e.path);
    NoneAdmitted(w.admits(job), job, FlatFiles(w, rank, job, e.path));
  }

  // ----- the whole scrape -----

  lemma MovedToFront(b: seq<Visit>, i: nat)
    requires i < |b|
    ensures var rest := b[..i] + b[i + 1..];
      multiset(b) == multiset{b[i]} + multiset(rest) && SentBy(b) == multiset(b[i].files) + SentBy(rest)
  {
    var tail := [b[i]] + b[i + 1..];
    assert b == b[..i] + tail && tail[1..] == b[i + 1..];
    SentByConcat(b[..i], tail);
    SentByConcat(b[..i], b[i + 1..]);
  }

  lemma {:induction false} SentByIgnoresOrder(a: seq<Visit>, b: seq<Visit>)
    requires multiset(a) == multiset(b)
    ensures SentBy(a) == SentBy(b)
    decreases a
  {
    if a == [] {
      assert |multiset(b)| == 0;
    } else {
      assert a[0] in multiset(a);
      var i :| 0 <= i < |b| && b[i] == a[0];
      var rest := b[..i] + b[i + 1..];
      MovedToFront(b, i);
      assert a == [a[0]] + a[1..];
      assert multiset(a) == multiset{a[0]} + multiset(a[1..]);
      Cancel(a[0], multiset(a[1..]), multiset(rest));
      SentByIgnoresOrder(a[1..], rest);
    }
  }

  ghost predicate JobIsListed(w: World, rank: Rank, job: JobId) {
    ListsByDirectory(w, job) && PrefixClosed(w.admits(job)) && TreeIsListed(w, rank, job, "/")
  }

  /** The admitted files of the complete tree of a job. */
  ghost function JobKept(w: World, rank: Rank, job: JobId): multiset<File>
    requires JobIsListed(w, rank, job)
  {
    Kept(w.admits(job), job, FlatFiles(w, rank, job, "/"))
  }

  lemma JobSendsWhatIsKept(w: World, rank: Rank, job: JobId)
    requires Finite(VisitorOf(w), rank) && JobIsListed(w, rank, job)
    ensures SentBy(Subwalk(VisitorOf(w), rank, Directory(job, "/", 0))) == JobKept(w, rank, job)
  {
    PrunedWalkIsFilter(w, rank, job, "/");
  }

  type PerJob = JobId -> multiset<File>

  /** The files of all jobs from `from` on. */
  function Total(of: PerJob, from: nat, jobs: nat): multiset<File>
    requires from <= jobs
    decreases jobs - from
  {
    if from == jobs then multiset{} else of(from) + Total(of, from + 1, jobs)
  }

  ghost predicate SendsFrom(visit: Visitor, rank: Rank, of: PerJob, job: JobId)
    requires Finite(visit, rank)
  {
    of(job) == SentBy(Subwalk(visit, rank, Directory(job, "/", 0)))
  }

  lemma {:induction false} JobByJobSends(visit: Visitor, rank: Rank, of: PerJob, from: nat, jobs: nat)
    requires Finite(visit, rank) && from <= jobs
    requires forall j: nat | from <= j < jobs :: SendsFrom(visit, rank, of, j)
    ensures SentBy(JobByJob(visit, rank, from, jobs)) == Total(of, from, jobs)
    decreases jobs - from
  {
    if from == jobs {
    } else {
      JobByJobSends(visit, rank, of, from + 1, jobs);
      SentByConcat(Subwalk(visit, rank, Directory(from, "/", 0)), JobByJob(visit, rank, from + 1, jobs));
      assert SendsFrom(visit, rank, of, from);
    }
  }

  /**
   * A scrape in which every directory is listed within its attempts sends, each as often
   * as the trees contain it, the files that a filter over the complete trees keeps.
   */
  lemma ScrapeIsFilter(w: World, rank: Rank, jobs: nat, kept: PerJob)
    requires Ranked(w, rank)
    requires forall j: nat | j < jobs :: JobIsListed(w, rank, j) && kept(j) == JobKept(w, rank, j)
    ensures Finite(VisitorOf(w), rank)
    ensures SentBy(Walk(VisitorOf(w), rank, Roots(0, jobs))) == Total(kept, 0, jobs)
  {
    VisitorIsFinite(w, rank);
    forall j: nat | j < jobs
      ensures SendsFrom(VisitorOf(w), rank, kept, j)
    {
      JobSendsWhatIsKept(w, rank, j);
    }
    WalkSends(VisitorOf(w), rank, jobs, kept);
  }

  lemma WalkSends(visit: Visitor, rank: Rank, jobs: nat, of: PerJob)
    requires Finite(visit, rank)
    requires forall j: nat | j < jobs :: SendsFrom(visit, rank, of, j)
    ensures SentBy(Walk(visit, rank, Roots(0, jobs))) == Total(of, 0, jobs)
  {
    var stack := Roots(0, jobs);
    WalkVisitsEverything(visit, rank, stack);
    RootsAreJobByJob(visit, rank, 0, jobs);
    SentByIgnoresOrder(Walk(visit, rank, stack), SubwalkAll(visit, rank, stack));
    JobByJobSends(visit, rank, of, 0, jobs);
  }
}
