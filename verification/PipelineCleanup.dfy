/** What the cleaner may rely on, and what it deletes. */
module PipelineCleanup {
  import opened Base
  import opened Objects
  import opened Cleanup
  import Scraping
  import opened Pipeline
  import opened PipelineDiscipline
  import opened PipelineFlow

  // ----- what the cleaner knows -----

  predicate Eligible(c: Config, s: State, job: JobId) {
    job in ToCleanUp(c.strategy, s.cleaner.collected, s.incomplete)
  }

  /** The cleaner works with what is true of the failed jobs, and has every job to clean up behind it or before it. */
  predicate Informed(c: Config, s: State) {
    match s.cleaner.stage
    case Cleaning(todo, failed) => InformedOf(c, s, todo, failed)
    case Telling(todo, failed, _) => InformedOf(c, s, todo, failed)
    case CleanerDone => s.interrupted || EligibleIn(c, s, {})
    case CleanerLeft => s.interrupted || EligibleIn(c, s, {})
    case _ => s.cleaner.cleaned == {}
  }

  predicate InformedOf(c: Config, s: State, todo: set<JobId>, failed: set<JobId>) {
    && todo <= JobsIn(c.strategy, s.cleaner.collected)
    && failed == FailedIn(c.strategy, s.cleaner.collected, s.incomplete)
    && EligibleIn(c, s, todo)
  }

  predicate EligibleIn(c: Config, s: State, todo: set<JobId>) {
    forall job | job in JobsIn(c.strategy, s.cleaner.collected) ::
      Eligible(c, s, job) ==> job in todo + s.cleaner.cleaned + s.cleaner.troubled
  }

  /** Of a job that has been cleaned up, only known objects are left. */
  predicate CleanedUp(c: Config, s: State) {
    forall job, n | job in s.cleaner.cleaned && n in Deletions(c, s, job) :: n !in s.target
  }

  predicate CleansWell(c: Config, s: State) {
    && Informed(c, s)
    && CleanedUp(c, s)
    && (Collects(s.cleaner.stage) || s.cleaner.stage.Checking? ==> s.cleaner.cleaned == {})
  }

  // ----- it holds in every reachable state -----

  lemma ScraperKeepsCleaning(c: Config, s: State, m: ScraperMove)
    requires Disciplined(s) && s.workers != [] && CleansWell(c, s) && ScraperCan(s, m)
    ensures CleansWell(c, ScraperStep(s, m))
  {
    var t := ScraperStep(s, m);
    assert t.cleaner == s.cleaner && t.target == s.target;
    if !Collects(s.cleaner.stage) {
      assert WorkerFits(s, s.workers[0]) && Dry(s);
      assert t.incomplete == s.incomplete;
    }
  }

  lemma WorkerKeepsCleaning(c: Config, s: State, i: nat, m: WorkerMove)
    requires Disciplined(s) && CleansWell(c, s) && i < |s.workers| && WorkerCan(c, s, s.workers[i], m)
    ensures CleansWell(c, WorkerStep(c, s, i, m))
  {
    assert WorkerFits(s, s.workers[i]);
    assert Collects(s.cleaner.stage);
    assert WorkerStep(c, s, i, m).cleaner == s.cleaner;
  }

  lemma CleanerKeepsCleaning(c: Config, s: State, m: CleanerMove)
    requires CleansWell(c, s) && CleanerCan(c, s, m)
    ensures CleansWell(c, CleanerStep(c, s, m))
  {
    var t := CleanerStep(c, s, m);
    if m.CleanJob? {
      assert t.cleaner.collected == s.cleaner.collected;
      assert t.cleaner.cleaned <= s.cleaner.cleaned + {m.job};
    }
  }

  lemma StepKeepsCleaning(c: Config, s: State, step: Step)
    requires Disciplined(s) && s.workers != [] && CleansWell(c, s) && Can(c, s, step)
    ensures CleansWell(c, After(c, s, step))
  {
    match step
    case Interrupt =>
    case ByScraper(m) => ScraperKeepsCleaning(c, s, m);
    case ByWorker(i, m) => WorkerKeepsCleaning(c, s, i, m);
    case ByCleaner(m) => CleanerKeepsCleaning(c, s, m);
    case ByReporter(m) =>
      assert ReporterStep(s, m).cleaner == s.cleaner && ReporterStep(s, m).target == s.target;
    case ByMain =>
      assert After(c, s, step).cleaner.collected == s.cleaner.collected;
  }

  lemma {:induction false} CleansWellOn(c: Config, s: State, steps: seq<Step>)
    requires Disciplined(s) && s.workers != [] && CleansWell(c, s) && Runs(c, s, steps)
    ensures CleansWell(c, End(c, s, steps))
    decreases steps
  {
    if steps == [] {
    } else {
      StepKeepsDiscipline(c, s, steps[0]);
      StepKeepsCleaning(c, s, steps[0]);
      CleansWellOn(c, After(c, s, steps[0]), steps[1..]);
    }
  }

  lemma AlwaysCleansWell(c: Config, steps: seq<Step>)
    requires c.workers >= 1 && Runs(c, Start(c), steps)
    ensures CleansWell(c, End(c, Start(c), steps))
  {
    StartIsDisciplined(c);
    CleansWellOn(c, Start(c), steps);
  }

  // ----- safety of the cleanup -----

  /** The objects that the sent files have on the target side. */
  function Mirrored(c: Config, s: State, job: JobId): set<ObjectName> {
    set f | f in s.history.sent && f.job == job :: c.name(f)
  }

  lemma AllHanded(c: Config, steps: seq<Step>)
    requires c.workers >= 1 && Runs(c, Start(c), steps) && AllGone(End(c, Start(c), steps))
    requires !End(c, Start(c), steps).interrupted
    ensures var s := End(c, Start(c), steps);
      && (forall f :: f in s.history.sent <==> f in FilesOf(s.Handed()))
      && multiset(s.history.sent) == multiset(FilesOf(s.Handed()))
  {
    var s := End(c, Start(c), steps);
    EachFileOnce(c, steps);
    forall f
      ensures f in s.history.sent <==> f in FilesOf(s.Handed())
    {
      assert f in s.history.sent <==> f in multiset(s.history.sent);
      assert f in FilesOf(s.Handed()) <==> f in multiset(FilesOf(s.Handed()));
    }
  }

  lemma MirroredAreTransferred(c: Config, s: State, job: JobId)
    requires forall f :: f in s.history.sent <==> f in FilesOf(s.cleaner.collected)
    ensures TransferredIn(c.name, s.cleaner.collected, job) == Mirrored(c, s, job)
  {
    var collected := s.cleaner.collected;
    forall n | n in TransferredIn(c.name, collected, job)
      ensures n in Mirrored(c, s, job)
    {
      var i :| i in collected && i.file.job == job && n == c.name(i.file);
      var k :| 0 <= k < |collected| && collected[k] == i;
      assert FilesOf(collected)[k] == i.file;
    }
    forall n | n in Mirrored(c, s, job)
      ensures n in TransferredIn(c.name, collected, job)
    {
      var f :| f in s.history.sent && f.job == job && n == c.name(f);
      var k :| 0 <= k < |collected| && FilesOf(collected)[k] == f;
      assert collected[k] in collected && collected[k].file == f;
    }
  }

  /**
   * Whenever anything is deleted for a job, the scraper has gone through its whole work,
   * no transferor has thrown away or still holds a file, no file of the job has failed, no
   * directory of it has been given up, and nothing that is deleted is the object of a
   * file that the scraper has found for the job.
   */
  lemma CleanupIsSafe(c: Config, steps: seq<Step>, job: JobId, deleted: set<ObjectName>)
    requires c.workers >= 1 && Runs(c, Start(c), steps)
    requires Can(c, End(c, Start(c), steps), ByCleaner(CleanJob(job, deleted)))
    requires Deletes(c, End(c, Start(c), steps), CleanJob(job, deleted))
    ensures var s := End(c, Start(c), steps);
      && !s.interrupted && !s.scraper.early && s.Queue1Closed() && c.strategy(job).DeleteUnknownFiles?
      && s.history.drained == [] && AllGone(s) && s.queue1 == [] && s.queue2 == []
      && multiset(s.history.sent) == multiset(FilesOf(s.cleaner.collected))
      && (forall i | i in s.cleaner.collected :: i.file.job == job ==> !i.failed)
      && job !in s.incomplete
      && deleted <= c.Existing(job) - Mirrored(c, s, job)
  {
    var s := End(c, Start(c), steps);
    AlwaysDisciplined(c, steps);
    AlwaysCleansWell(c, steps);
    DryAtTheEnd(c, steps);
    AllHanded(c, steps);
    assert s.Handed() == s.cleaner.collected;
    MirroredAreTransferred(c, s, job);
  }
}
