/** The scrape of a single job, among those of all jobs. */
module ScrapeJob {
  import opened Base
  import opened Objects
  import opened Scraping
  import opened ScrapeOrder
  import opened ScrapeTree

  // ----- visits belong to a job -----

  predicate OfJob(visits: seq<Visit>, job: JobId) {
    forall v | v in visits :: v.dir.job == job && forall f | f in v.files :: f.job == job
  }

  /** Directories and files that an iteration finds belong to the job of its directory. */
  ghost predicate StaysInJob(visit: Visitor) {
    forall d: Directory :: VisitStaysInJob(visit(d), d)
  }

  predicate VisitStaysInJob(v: Visit, d: Directory) {
    v.dir == d && (forall p | p in v.pushed :: p.job == d.job) && (forall f | f in v.files :: f.job == d.job)
  }

  lemma {:induction false} FilesAreOfJob(admits: Filter, job: JobId, entries: seq<FileSpec>)
    ensures forall f | f in FilesIn(admits, job, entries) :: f.job == job
    decreases entries
  {
    if entries == [] {
    } else {
      FilesAreOfJob(admits, job, entries[1..]);
    }
  }

  lemma VisitorStaysInJob(w: World)
    ensures StaysInJob(VisitorOf(w))
  {
    forall d: Directory
      ensures VisitStaysInJob(VisitorOf(w)(d), d)
    {
      FilesAreOfJob(w.admits(d.job), d.job, ListDirectory(w, d).entries);
      DirsComeFromEntries(w.admits(d.job), d.job, ListDirectory(w, d).entries);
    }
  }

  lemma {:induction false} SubwalkIsOfJob(visit: Visitor, rank: Rank, d: Directory)
    requires Finite(visit, rank) && StaysInJob(visit)
    ensures OfJob(Subwalk(visit, rank, d), d.job)
    decreases rank(d.job, d.path), RetriesLeft(d), 0
  {
    var v := visit(d);
    assert FiniteAt(v, d, rank) && VisitStaysInJob(v, d);
    SubwalkUnfolds(visit, rank, d);
    SubwalksAreOfJob(visit, rank, v.pushed, d.job);
    if v.ending.Postponed? {
      SubwalkIsOfJob(visit, rank, v.Again()[0]);
      SubwalkOfOne(visit, rank, v.Again()[0]);
    } else {
      assert v.Again() == [];
    }
  }

  lemma {:induction false} SubwalksAreOfJob(visit: Visitor, rank: Rank, stack: seq<Directory>, job: JobId)
    requires Finite(visit, rank) && StaysInJob(visit) && forall d | d in stack :: d.job == job
    ensures OfJob(SubwalkAll(visit, rank, stack), job)
    decreases Bound(rank, stack), 0, |stack|
  {
    if stack == [] {
    } else {
      var d, front := stack[|stack| - 1], stack[..|stack| - 1];
      SubwalkIsOfJob(visit, rank, d);
      SubwalksAreOfJob(visit, rank, front, job);
    }
  }

  lemma {:induction false} JobByJobContains(visit: Visitor, rank: Rank, from: nat, jobs: nat, v: Visit)
    requires Finite(visit, rank) && StaysInJob(visit) && from <= jobs
    ensures v in JobByJob(visit, rank, from, jobs) <==>
      from <= v.dir.job < jobs && v in Subwalk(visit, rank, Directory(v.dir.job, "/", 0))
    decreases jobs - from
  {
    if from == jobs {
    } else {
      SubwalkIsOfJob(visit, rank, Directory(from, "/", 0));
      JobByJobContains(visit, rank, from + 1, jobs, v);
    }
  }

  /** The visits of the walk to directories of a job are those that its root directory causes. */
  lemma WalkOfJob(visit: Visitor, rank: Rank, jobs: nat, v: Visit)
    requires Finite(visit, rank) && StaysInJob(visit)
    ensures v in Walk(visit, rank, Roots(0, jobs)) <==>
      v.dir.job < jobs && v in Subwalk(visit, rank, Directory(v.dir.job, "/", 0))
  {
    var walk, all := Walk(visit, rank, Roots(0, jobs)), JobByJob(visit, rank, 0, jobs);
    WalkVisitsEverything(visit, rank, Roots(0, jobs));
    RootsAreJobByJob(visit, rank, 0, jobs);
    assert v in walk <==> v in multiset(walk);
    assert v in all <==> v in multiset(all);
    JobByJobContains(visit, rank, 0, jobs, v);
  }

  // ----- a complete job -----

  predicate Complete(visits: seq<Visit>) {
    forall v | v in visits :: v.ending.Done? || v.ending.Postponed?
  }

  lemma {:induction false} AttemptsAreComplete(visit: Visitor, rank: Rank, d: Directory)
    requires Finite(visit, rank)
    requires forall x: Directory :: x.job == d.job && visit(x).ending.Postponed? ==> Fruitless(visit(x))
    requires LastAttempt(visit, rank, d).ending.Done?
    requires Complete(SubwalkAll(visit, rank, LastAttempt(visit, rank, d).pushed))
    ensures Complete(Subwalk(visit, rank, d))
    decreases RetriesLeft(d)
  {
    var v := visit(d);
    assert FiniteAt(v, d, rank);
    SubwalkUnfolds(visit, rank, d);
    if v.ending.Postponed? {
      AttemptsAreComplete(visit, rank, v.Again()[0]);
      SubwalkOfOne(visit, rank, v.Again()[0]);
    } else {
      assert v.Again() == [];
    }
  }

  lemma {:induction false} LastAttemptIsDone(w: World, rank: Rank, d: Directory)
    requires Finite(VisitorOf(w), rank) && ListsByDirectory(w, d.job) && Contents(w, d).Some?
    ensures LastAttempt(VisitorOf(w), rank, d).ending.Done?
    decreases RetriesLeft(d)
  {
    VisitByDirectory(w, d);
    if ListDirectory(w, d).error.None? {
    } else {
      LastAttemptIsDone(w, rank, d.(retryCounter := d.retryCounter + 1));
    }
  }

  /** In a tree that is listed, no directory is given up and the job is not skipped. */
  lemma {:induction false} ListedTreeIsComplete(w: World, rank: Rank, job: JobId, path: string)
    requires Finite(VisitorOf(w), rank) && ListsByDirectory(w, job) && TreeIsListed(w, rank, job, path)
    ensures Complete(Subwalk(VisitorOf(w), rank, Directory(job, path, 0)))
    decreases rank(job, path), 1, 0
  {
    var d := Directory(job, path, 0);
    forall x: Directory | x.job == job && VisitorOf(w)(x).ending.Postponed?
      ensures Fruitless(VisitorOf(w)(x))
    {
      VisitByDirectory(w, x);
    }
    LastAttemptIsDone(w, rank, d);
    LastAttemptLists(w, rank, d);
    ListedEntriesAreComplete(w, rank, job, path, Contents(w, d).value);
    AttemptsAreComplete(VisitorOf(w), rank, d);
  }

  lemma {:induction false} ListedEntriesAreComplete(w: World, rank: Rank, job: JobId, path: string,
                                                    entries: seq<FileSpec>)
    requires Finite(VisitorOf(w), rank) && ListsByDirectory(w, job) && EntriesAreListed(w, rank, job, path, entries)
    ensures Complete(SubwalkAll(VisitorOf(w), rank, DirsIn(w.admits(job), job, entries)))
    decreases rank(job, path), 0, |entries|
  {
    if entries == [] {
    } else {
      var e, dirs := entries[0], DirsIn(w.admits(job), job, entries[1..]);
      ListedEntriesAreComplete(w, rank, job, path, entries[1..]);
      if e.isDirectory && w.admits(job)(e) {
        ListedTreeIsComplete(w, rank, job, e.path);
        SubwalkAllConcat(VisitorOf(w), rank, [Directory(job, e.path, 0)], dirs);
        SubwalkOfOne(VisitorOf(w), rank, Directory(job, e.path, 0));
      } else {
        assert [] + dirs == dirs;
      }
    }
  }

  // ----- what the scrape of a job comes to -----

  lemma {:induction false} SentByContains(visits: seq<Visit>, f: File)
    ensures f in SentBy(visits) <==> exists v :: v in visits && f in v.files
    decreases visits
  {
    if visits == [] {
    } else {
      SentByContains(visits[1..], f);
      assert forall v :: v in visits <==> v == visits[0] || v in visits[1..];
      assert f in visits[0].files <==> f in multiset(visits[0].files);
    }
  }

  /** The admitted files of the complete tree of a job. */
  ghost function Selected(w: World, rank: Rank, job: JobId): set<File>
    requires JobIsListed(w, rank, job)
  {
    set spec | spec in FlatFiles(w, rank, job, "/") && w.admits(job)(spec) :: File(job, spec)
  }

  lemma {:induction false} FilesInContains(admits: Filter, job: JobId, specs: seq<FileSpec>, f: File)
    ensures f in FilesIn(admits, job, specs) <==>
      f.job == job && f.spec in specs && !f.spec.isDirectory && admits(f.spec)
    decreases specs
  {
    if specs == [] {
    } else {
      FilesInContains(admits, job, specs[1..], f);
    }
  }

  lemma KeptAreSelected(w: World, rank: Rank, job: JobId, f: File)
    requires JobIsListed(w, rank, job)
    ensures f in JobKept(w, rank, job) <==> f in Selected(w, rank, job)
  {
    FilesInContains(w.admits(job), job, FlatFiles(w, rank, job, "/"), f);
    FlatFilesLieBelow(w, rank, job, "/");
  }

  /**
   * The scrape of a job sends exactly these files, each at least once, and the job is not
   * marked as incomplete.
   */
  ghost predicate Yields(w: World, rank: Rank, job: JobId, selected: set<File>)
    requires Finite(VisitorOf(w), rank)
  {
    var own := Subwalk(VisitorOf(w), rank, Directory(job, "/", 0));
    Complete(own) && forall f: File :: f in SentBy(own) <==> f in selected
  }

  /** A tree whose directories can be listed within their attempts yields its admitted files. */
  lemma TreeYields(w: World, rank: Rank, job: JobId)
    requires Finite(VisitorOf(w), rank) && JobIsListed(w, rank, job)
    ensures Yields(w, rank, job, Selected(w, rank, job))
  {
    JobSendsWhatIsKept(w, rank, job);
    ListedTreeIsComplete(w, rank, job, "/");
    forall f: File
      ensures f in JobKept(w, rank, job) <==> f in Selected(w, rank, job)
    {
      KeptAreSelected(w, rank, job, f);
    }
  }

  /**
   * What a job yields is what is sent for it in the walk over all jobs, whatever happens
   * with the other ones; and none of its directories is given up.
   */
  lemma JobIsScraped(w: World, rank: Rank, jobs: nat, job: JobId, selected: set<File>)
    requires Finite(VisitorOf(w), rank) && job < jobs && Yields(w, rank, job, selected)
    ensures var walk := Walk(VisitorOf(w), rank, Roots(0, jobs));
      && (forall f: File | f.job == job :: (exists v :: v in walk && f in v.files) <==> f in selected)
      && (forall v | v in walk && v.dir.job == job :: v.ending.Done? || v.ending.Postponed?)
  {
    VisitorStaysInJob(w);
    var visit, root := VisitorOf(w), Directory(job, "/", 0);
    var walk, own := Walk(visit, rank, Roots(0, jobs)), Subwalk(visit, rank, root);
    SubwalkIsOfJob(visit, rank, root);
    forall v: Visit
      ensures v in own <==> v in walk && v.dir.job == job
    {
      WalkOfJob(visit, rank, jobs, v);
    }
    WalkFilesAreOfJob(visit, rank, jobs);
    forall f: File | f.job == job
      ensures (exists v :: v in walk && f in v.files) <==> f in selected
    {
      SentByContains(own, f);
    }
  }

  lemma WalkFilesAreOfJob(visit: Visitor, rank: Rank, jobs: nat)
    requires Finite(visit, rank) && StaysInJob(visit)
    ensures forall v, f | v in Walk(visit, rank, Roots(0, jobs)) && f in v.files :: f.job == v.dir.job
  {
    forall v, f | v in Walk(visit, rank, Roots(0, jobs)) && f in v.files
      ensures f.job == v.dir.job
    {
      WalkOfJob(visit, rank, jobs, v);
      SubwalkIsOfJob(visit, rank, Directory(v.dir.job, "/", 0));
    }
  }
}
