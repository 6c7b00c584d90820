/** Immutable files that are already on the target side are never transferred again. */
module PipelineImmutable {
  import opened Base
  import opened Objects
  import opened Pipeline
  import opened PipelineMirror

  /** Whatever the scraper may find for this object is immutable, and the object is in the snapshot of its job. */
  ghost predicate OnlyImmutable(c: Config, n: ObjectName) {
    n in c.before && forall f: File | Known(c, f) && c.name(f) == n :: c.immutable(f) && c.owns(f.job, n)
  }

  /** The object is as it was before the run, or has been removed. */
  predicate Untouched(c: Config, s: State, n: ObjectName) {
    n in s.target ==> n in c.before && s.target[n] == c.before[n]
  }

  lemma WorkerLeavesAlone(c: Config, s: State, i: nat, m: WorkerMove, n: ObjectName)
    requires OnlyImmutable(c, n) && AllSound(c, s) && Scripted(c, s) && Untouched(c, s, n)
    requires i < |s.workers| && WorkerCan(c, s, s.workers[i], m)
    ensures Untouched(c, WorkerStep(c, s, i, m), n)
  {
    var w := s.workers[i];
    assert Sound(c, s.history.sent, w);
    if w.phase.Looked? || w.phase.Deleting? {
      assert Known(c, w.phase.file) && !c.Fixed(w.phase.file);
    }
  }

  lemma CleanerLeavesAlone(c: Config, s: State, m: CleanerMove, n: ObjectName)
    requires Untouched(c, s, n) && CleanerCan(c, s, m)
    ensures Untouched(c, CleanerStep(c, s, m), n)
  {
  }

  lemma StepLeavesAlone(c: Config, s: State, step: Step, n: ObjectName)
    requires OnlyImmutable(c, n) && AllSound(c, s) && Scripted(c, s) && Untouched(c, s, n) && Can(c, s, step)
    ensures Untouched(c, After(c, s, step), n)
  {
    match step
    case Interrupt =>
    case ByScraper(m) => assert ScraperStep(s, m).target == s.target;
    case ByWorker(i, m) => WorkerLeavesAlone(c, s, i, m, n);
    case ByCleaner(m) => CleanerLeavesAlone(c, s, m, n);
    case ByReporter(m) => assert ReporterStep(s, m).target == s.target;
    case ByMain => assert MainStep(s).target == s.target;
  }

  lemma {:induction false} UntouchedOn(c: Config, s: State, steps: seq<Step>, n: ObjectName)
    requires OnlyImmutable(c, n) && AllSound(c, s) && Scripted(c, s) && Untouched(c, s, n) && Runs(c, s, steps)
    ensures Untouched(c, End(c, s, steps), n)
    decreases steps
  {
    if steps == [] {
    } else {
      StepKeepsSound(c, s, steps[0]);
      StepKeepsScripted(c, s, steps[0]);
      StepLeavesAlone(c, s, steps[0], n);
      UntouchedOn(c, After(c, s, steps[0]), steps[1..], n);
    }
  }

  /** In every state of every run, an object of immutable files that was there before has its old version. */
  lemma ImmutableIsUntouched(c: Config, steps: seq<Step>, n: ObjectName)
    requires OnlyImmutable(c, n) && Runs(c, Start(c), steps)
    ensures Untouched(c, End(c, Start(c), steps), n)
  {
    UntouchedOn(c, Start(c), steps, n);
  }
}
