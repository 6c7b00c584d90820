/** A job for which no file is found is not cleaned up: everything stays on the target side. */
module PipelineEmptyJob {
  import opened Base
  import opened Objects
  import opened Cleanup
  import Scraping
  import opened Pipeline
  import opened PipelineDiscipline
  import opened PipelineCleanup
  import opened PipelineMirror

  predicate NothingSent(s: State, job: JobId) {
    forall f | f in s.history.sent :: f.job != job
  }

  predicate HandedAreSent(s: State) {
    forall i | i in s.Handed() :: i.file in s.history.sent
  }

  predicate Stays(c: Config, s: State, job: JobId, n: ObjectName) {
    NothingSent(s, job) && n in c.Existing(job) ==> n in s.target
  }

  ghost predicate Undiminished(c: Config, s: State, job: JobId, n: ObjectName) {
    && Separate(c) && Disciplined(s) && s.workers != [] && AllSound(c, s) && Scripted(c, s) && CleansWell(c, s)
    && HandedAreSent(s) && Stays(c, s, job, n)
  }

  lemma StepKeepsHandedSent(c: Config, s: State, step: Step)
    requires AllSound(c, s) && HandedAreSent(s) && Can(c, s, step)
    ensures HandedAreSent(After(c, s, step))
  {
    var t := After(c, s, step);
    if step.ByWorker? {
      WorkerKeepsHandedSent(c, s, step.i, step.wm);
    } else {
      assert s.history.sent <= t.history.sent && t.Handed() == s.Handed();
    }
  }

  lemma WorkerKeepsHandedSent(c: Config, s: State, i: nat, m: WorkerMove)
    requires AllSound(c, s) && HandedAreSent(s) && i < |s.workers| && WorkerCan(c, s, s.workers[i], m)
    ensures HandedAreSent(WorkerStep(c, s, i, m))
  {
    HandedGrows(c, s, i, m);
    assert Sound(c, s.history.sent, s.workers[i]) && WorkerStep(c, s, i, m).history.sent == s.history.sent;
  }

  lemma WorkerKeepsStaying(c: Config, s: State, i: nat, m: WorkerMove, job: JobId, n: ObjectName)
    requires Undiminished(c, s, job, n) && i < |s.workers| && WorkerCan(c, s, s.workers[i], m)
    ensures Stays(c, WorkerStep(c, s, i, m), job, n)
  {
    var w, t := s.workers[i], WorkerStep(c, s, i, m);
    assert Sound(c, s.history.sent, w);
    assert t.history.sent == s.history.sent;
    if NothingSent(t, job) && n in c.Existing(job) && !w.phase.Idle? {
      assert c.owns(w.phase.file.job, c.name(w.phase.file)) && w.phase.file.job != job;
      assert c.name(w.phase.file) != n;
    }
  }

  lemma CleanerKeepsStaying(c: Config, s: State, m: CleanerMove, job: JobId, n: ObjectName)
    requires Undiminished(c, s, job, n) && CleanerCan(c, s, m)
    ensures Stays(c, CleanerStep(c, s, m), job, n)
  {
    if Deletes(c, s, m) {
      CleanedJobsHaveFiles(c, s, m);
      assert NothingSent(s, job) && n in c.Existing(job) ==> n !in Deletions(c, s, m.job);
    }
  }

  lemma CleanedJobsHaveFiles(c: Config, s: State, m: CleanerMove)
    requires CleansWell(c, s) && HandedAreSent(s) && CleanerCan(c, s, m) && Deletes(c, s, m)
    ensures !NothingSent(s, m.job)
  {
    var i :| i in s.cleaner.collected && i.file.job == m.job;
    assert i in s.Handed() && i.file in s.history.sent;
  }

  lemma StepKeepsStaying(c: Config, s: State, step: Step, job: JobId, n: ObjectName)
    requires Undiminished(c, s, job, n) && Can(c, s, step)
    ensures Stays(c, After(c, s, step), job, n)
  {
    match step
    case Interrupt =>
    case ByScraper(m) =>
      assert s.history.sent <= After(c, s, step).history.sent;
    case ByWorker(i, m) => WorkerKeepsStaying(c, s, i, m, job, n);
    case ByCleaner(m) => CleanerKeepsStaying(c, s, m, job, n);
    case ByReporter(m) =>
    case ByMain =>
  }

  lemma StepKeepsUndiminished(c: Config, s: State, step: Step, job: JobId, n: ObjectName)
    requires Undiminished(c, s, job, n) && Can(c, s, step)
    ensures Undiminished(c, After(c, s, step), job, n)
  {
    StepKeepsBasics(c, s, step);
    StepKeepsCleaning(c, s, step);
    StepKeepsHandedSent(c, s, step);
    StepKeepsStaying(c, s, step, job, n);
  }

  lemma StepKeepsBasics(c: Config, s: State, step: Step)
    requires Separate(c) && Disciplined(s) && s.workers != [] && AllSound(c, s) && Scripted(c, s) && Can(c, s, step)
    ensures var t := After(c, s, step); Disciplined(t) && t.workers != [] && AllSound(c, t) && Scripted(c, t)
  {
    StepKeepsDiscipline(c, s, step);
    StepKeepsSound(c, s, step);
    StepKeepsScripted(c, s, step);
  }

  lemma {:induction false} StaysOn(c: Config, s: State, steps: seq<Step>, job: JobId, n: ObjectName)
    requires Undiminished(c, s, job, n) && Runs(c, s, steps)
    ensures Stays(c, End(c, s, steps), job, n)
    decreases steps
  {
    if steps == [] {
    } else {
      StepKeepsUndiminished(c, s, steps[0], job, n);
      StaysOn(c, After(c, s, steps[0]), steps[1..], job, n);
    }
  }

  /**
   * As long as no file of a job has been sent, its target is as it was before the run. So
   * the mirror of a source that has become empty is not emptied.
   */
  lemma EmptyJobIsLeftAlone(c: Config, steps: seq<Step>, job: JobId)
    requires c.workers >= 1 && Separate(c) && Runs(c, Start(c), steps) && NothingSent(End(c, Start(c), steps), job)
    ensures ObjectsOf(c, End(c, Start(c), steps), job) == c.Existing(job)
  {
    var s := End(c, Start(c), steps);
    StartIsDisciplined(c);
    forall n: ObjectName
      ensures n in ObjectsOf(c, s, job) <==> n in c.Existing(job)
    {
      StaysOn(c, Start(c), steps, job, n);
      AlwaysOriginates(c, steps, n);
      if Sent(c, s, n) && c.owns(job, n) {
        OwnersHaveFiles(c, steps, job, n);
      }
    }
  }

  lemma OwnersHaveFiles(c: Config, steps: seq<Step>, job: JobId, n: ObjectName)
    requires Separate(c) && Runs(c, Start(c), steps) && Sent(c, End(c, Start(c), steps), n) && c.owns(job, n)
    ensures !NothingSent(End(c, Start(c), steps), job)
  {
    var f :| f in End(c, Start(c), steps).history.sent && c.name(f) == n;
    SentIsKnown(c, steps, f);
    assert c.owns(f.job, n);
  }
}
