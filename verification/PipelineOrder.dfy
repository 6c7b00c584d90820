/** With one transferor and no failed attempt, files reach the target in the order in which they are sent. */
module PipelineOrder {
  import opened Base
  import opened Objects
  import opened Cleanup
  import Scraping
  import opened Pipeline
  import opened PipelineDiscipline
  import opened PipelineFlow
  import opened PipelineMirror

  /** No attempt to transfer a file fails. */
  predicate Undisturbed(steps: seq<Step>) {
    forall step | step in steps :: Succeeds(step)
  }

  predicate Succeeds(step: Step) {
    step.ByWorker? ==> !step.wm.Fail? && !step.wm.FailUpload?
  }

  /** The file that the transferor has in its hands. */
  function Hand(w: Worker): seq<File> {
    if w.phase.Idle? || w.phase.Reporting? then [] else [w.phase.file]
  }

  predicate Smooth(w: Worker) {
    w.retry == [] && !w.phase.Deleting? && (w.phase.Handing? ==> !w.phase.outcome.result.Failed?)
  }

  predicate Ordered(s: State) {
    && |s.workers| == 1 && Smooth(s.workers[0])
    && FilesOf(s.Handed()) + Hand(s.workers[0]) == s.history.tried
    && (s.workers[0].stage.Unstarted? || s.workers[0].stage.Main? ==> s.history.tried + s.queue1 == s.history.sent)
    && s.history.tried <= s.history.sent
    && (forall i | i in s.Handed() :: !i.failed)
  }

  lemma TakeKeepsOrder(c: Config, s: State)
    requires Ordered(s) && Disciplined(s) && WorkerCan(c, s, s.workers[0], Take)
    ensures Ordered(WorkerStep(c, s, 0, Take))
  {
    var t := WorkerStep(c, s, 0, Take);
    assert t.Handed() == s.Handed();
    assert s.queue1 == [s.queue1[0]] + s.queue1[1..];
    assert t.history.tried + t.queue1 == s.history.tried + s.queue1;
  }

  lemma HandOverKeepsOrder(c: Config, s: State)
    requires Ordered(s) && Disciplined(s) && WorkerCan(c, s, s.workers[0], HandOver)
    ensures Ordered(WorkerStep(c, s, 0, HandOver))
  {
    var w, t := s.workers[0], WorkerStep(c, s, 0, HandOver);
    assert t.Handed() == s.Handed() + [Info(w.phase.file, false)];
    assert FilesOf(t.Handed()) == FilesOf(s.Handed()) + [w.phase.file];
  }

  lemma WorkerKeepsOrder(c: Config, s: State, m: WorkerMove)
    requires Ordered(s) && Disciplined(s) && WorkerCan(c, s, s.workers[0], m) && !m.Fail? && !m.FailUpload?
    ensures Ordered(WorkerStep(c, s, 0, m))
  {
    assert WorkerFits(s, s.workers[0]);
    if m.Take? {
      TakeKeepsOrder(c, s);
    } else if m.HandOver? {
      HandOverKeepsOrder(c, s);
    } else {
      assert WorkerStep(c, s, 0, m).Handed() == s.Handed();
    }
  }

  lemma ScraperKeepsOrder(s: State, m: ScraperMove)
    requires Ordered(s) && ScraperCan(s, m)
    ensures Ordered(ScraperStep(s, m))
  {
    var t := ScraperStep(s, m);
    assert t.Handed() == s.Handed() && t.workers == s.workers && t.history.tried == s.history.tried;
    if m.Perform? && s.scraper.acts[0].Send? {
      Assoc(s.history.tried, s.queue1, [s.scraper.acts[0].file]);
    }
  }

  lemma MainKeepsOrder(s: State)
    requires Ordered(s) && Disciplined(s) && MainCan(s)
    ensures Ordered(MainStep(s))
  {
    var t := MainStep(s);
    assert t.Handed() == s.Handed() && t.history == s.history && t.queue1 == s.queue1;
    if s.main.stage.Starting? && s.main.stage.started < 1 {
      assert WorkerFits(s, s.workers[0]);
    }
  }

  lemma StepKeepsOrder(c: Config, s: State, step: Step)
    requires Ordered(s) && Disciplined(s) && Can(c, s, step) && Succeeds(step)
    ensures Ordered(After(c, s, step))
  {
    match step
    case Interrupt => assert After(c, s, step).Handed() == s.Handed();
    case ByScraper(m) => ScraperKeepsOrder(s, m);
    case ByWorker(i, m) => WorkerKeepsOrder(c, s, m);
    case ByCleaner(m) => CleanerKeepsOrder(c, s, m);
    case ByReporter(m) =>
      assert ReporterStep(s, m).workers == s.workers && ReporterStep(s, m).Handed() == s.Handed();
    case ByMain => MainKeepsOrder(s);
  }

  lemma CleanerKeepsOrder(c: Config, s: State, m: CleanerMove)
    requires Ordered(s) && CleanerCan(c, s, m)
    ensures Ordered(CleanerStep(c, s, m))
  {
    var t := CleanerStep(c, s, m);
    assert t.Handed() == s.Handed() && t.workers == s.workers && t.history == s.history && t.queue1 == s.queue1;
  }

  // ----- files that are relied upon are there -----

  predicate Arrived(c: Config, fit: Fit, s: State, f: File) {
    Claimed(c, fit, s, f) ==> Good(c, fit, s.target, f)
  }

  /** No transferor is about to delete an object. */
  predicate NoDeleting(s: State) {
    forall i | 0 <= i < |s.workers| :: !s.workers[i].phase.Deleting?
  }

  lemma StepKeepsNoDeleting(c: Config, s: State, step: Step)
    requires NoDeleting(s) && Can(c, s, step) && Succeeds(step)
    ensures NoDeleting(After(c, s, step))
  {
    var t := After(c, s, step);
    forall k | 0 <= k < |t.workers|
      ensures !t.workers[k].phase.Deleting?
    {
      if step.ByWorker? && step.i == k {
      } else {
        assert t.workers[k] == s.workers[k] || t.workers[k] == Worker(Main, Idle, []);
      }
    }
  }

  lemma UploadsKeepGood(c: Config, fit: Fit, s: State, w: Worker, m: WorkerMove, f: File)
    requires Suits(c, fit) && Relates(c, s, w, f) && WorkerCan(c, s, w, m) && Good(c, fit, s.target, f)
    requires FitMove(fit, w, m) && !m.FailUpload? && !m.Delete?
    ensures Good(c, fit, TargetAfter(c, s.target, w, m), f)
  {
  }

  lemma WorkerKeepsArrived(c: Config, fit: Fit, s: State, i: nat, m: WorkerMove, f: File)
    requires Mirrors(c, fit, s, f) && Arrived(c, fit, s, f) && NoDeleting(s)
    requires i < |s.workers| && WorkerCan(c, s, s.workers[i], m) && FitMove(fit, s.workers[i], m) && !m.FailUpload?
    ensures Arrived(c, fit, WorkerStep(c, s, i, m), f)
  {
    var w, t := s.workers[i], WorkerStep(c, s, i, m);
    assert Collects(s.cleaner.stage) by {
      assert WorkerFits(s, w);
    }
    assert Sound(c, s.history.sent, w) && Relates(c, s, w, f);
    if Good(c, fit, s.target, f) {
      UploadsKeepGood(c, fit, s, w, m, f);
    } else if Claimed(c, fit, t, f) {
      HandedGrows(c, s, i, m);
      if SomeoneClaims(c, fit, t, f) {
        ClaimantsAreFew(c, fit, s, i, m, f);
        ClaimsAreFounded(c, fit, s, w, m, f);
      }
    }
  }

  lemma CleanerKeepsArrived(c: Config, fit: Fit, s: State, m: CleanerMove, f: File)
    requires Mirrors(c, fit, s, f) && Arrived(c, fit, s, f) && CleanerCan(c, s, m)
    ensures Arrived(c, fit, CleanerStep(c, s, m), f)
  {
    var t := CleanerStep(c, s, m);
    assert t.Handed() == s.Handed() && t.workers == s.workers;
    if Deletes(c, s, m) {
      assert s.Handed() == s.cleaner.collected;
      if Claimed(c, fit, t, f) {
        NobodyClaimsInTheEnd(c, fit, s, f);
        DeletionsSpare(c, s, m.job, f);
      }
    }
  }

  lemma MainKeepsArrived(c: Config, fit: Fit, s: State, f: File)
    requires Disciplined(s) && Arrived(c, fit, s, f) && MainCan(s)
    ensures Arrived(c, fit, MainStep(s), f)
  {
    var t := MainStep(s);
    assert t.Handed() == s.Handed() && t.target == s.target;
    if s.main.stage.Starting? && s.main.stage.started < |s.workers| && SomeoneClaims(c, fit, t, f) {
      var k :| 0 <= k < |t.workers| && Claims(c, fit, t.workers[k], f);
      assert k != s.main.stage.started && t.workers[k] == s.workers[k];
    }
  }

  lemma StepKeepsArrived(c: Config, fit: Fit, s: State, step: Step, f: File)
    requires Mirrors(c, fit, s, f) && Arrived(c, fit, s, f) && NoDeleting(s)
    requires Can(c, s, step) && FitStep(fit, s, step) && Succeeds(step)
    ensures Arrived(c, fit, After(c, s, step), f)
  {
    match step
    case Interrupt => SameArrived(c, fit, s, After(c, s, step), f);
    case ByScraper(m) => SameArrived(c, fit, s, After(c, s, step), f);
    case ByWorker(i, m) => WorkerKeepsArrived(c, fit, s, i, m, f);
    case ByCleaner(m) => CleanerKeepsArrived(c, fit, s, m, f);
    case ByReporter(m) => SameArrived(c, fit, s, After(c, s, step), f);
    case ByMain => MainKeepsArrived(c, fit, s, f);
  }

  lemma SameArrived(c: Config, fit: Fit, s: State, t: State, f: File)
    requires Arrived(c, fit, s, f)
    requires t.workers == s.workers && t.target == s.target && t.queue2 == s.queue2 && t.cleaner == s.cleaner
    ensures Arrived(c, fit, t, f)
  {
    assert t.Handed() == s.Handed();
  }

  lemma {:induction false} ArrivedOn(c: Config, fit: Fit, s: State, steps: seq<Step>, f: File)
    requires Mirrors(c, fit, s, f) && Arrived(c, fit, s, f) && NoDeleting(s)
    requires Runs(c, s, steps) && FitRun(c, fit, s, steps) && Undisturbed(steps)
    ensures Arrived(c, fit, End(c, s, steps), f)
    decreases steps
  {
    if steps == [] {
    } else {
      assert Succeeds(steps[0]);
      StepKeepsDiscipline(c, s, steps[0]);
      StepKeepsSound(c, s, steps[0]);
      StepKeepsScripted(c, s, steps[0]);
      StepKeepsBacked(c, fit, s, steps[0], f);
      StepKeepsArrived(c, fit, s, steps[0], f);
      StepKeepsNoDeleting(c, s, steps[0]);
      ArrivedOn(c, fit, After(c, s, steps[0]), steps[1..], f);
    }
  }

  lemma {:induction false} OrderedOn(c: Config, s: State, steps: seq<Step>)
    requires Ordered(s) && Disciplined(s) && Runs(c, s, steps) && Undisturbed(steps)
    ensures Ordered(End(c, s, steps))
    decreases steps
  {
    if steps == [] {
    } else {
      assert Succeeds(steps[0]);
      StepKeepsDiscipline(c, s, steps[0]);
      StepKeepsOrder(c, s, steps[0]);
      OrderedOn(c, After(c, s, steps[0]), steps[1..]);
    }
  }

  /**
   * With one transferor and no failed attempt, files are tried in the order in which they
   * are sent; and when a file is tried, everything sent before it is on the target side.
   */
  lemma InOrder(c: Config, fit: Fit, steps: seq<Step>, k: nat, earlier: nat)
    requires c.workers == 1 && Separate(c) && Suits(c, fit)
    requires Runs(c, Start(c), steps) && FitRun(c, fit, Start(c), steps) && Undisturbed(steps)
    requires earlier < k < |End(c, Start(c), steps).history.tried|
    ensures var s := End(c, Start(c), steps);
      && s.history.tried <= s.history.sent
      && Good(c, fit, s.target, s.history.sent[earlier])
  {
    var s := End(c, Start(c), steps);
    StartIsDisciplined(c);
    assert Start(c).Handed() == [];
    OrderedOn(c, Start(c), steps);
    var f := s.history.tried[earlier];
    assert f == FilesOf(s.Handed())[earlier];
    var i := s.Handed()[earlier];
    assert i in s.Handed() && i == Info(f, false);
    assert s.history.sent[earlier] == f && f in s.history.sent;
    SentIsKnown(c, steps, f);
    ArrivedOn(c, fit, Start(c), steps, f);
  }
}
