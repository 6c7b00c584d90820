/** No file fails for good before it has been tried a second time, unless there is an interrupt. */
module PipelineRetry {
  import opened Base
  import opened Objects
  import opened Pipeline
  import opened PipelineDiscipline
  import opened PipelineFlow

  /** The attempts behind what a transferor still holds: one before the retry list, two after it. */
  function Spent(w: Worker, f: File): nat {
    N(w.retry, f)
      + if w.phase.Idle? || w.phase.Reporting? then 0
        else if w.stage.Main? then One(w.phase.file, f)
        else 2 * One(w.phase.file, f)
  }

  function SpentOf(f: File): Count {
    (w: Worker) => Spent(w, f)
  }

  /** The attempts behind what has been handed over: at least one, and two before a failure. */
  function Cost(infos: seq<Info>, f: File): nat {
    multiset(infos)[Info(f, false)] + 2 * multiset(infos)[Info(f, true)]
  }

  predicate TriedEnough(s: State, f: File) {
    !s.interrupted ==> N(s.history.tried, f) >= Sum(SpentOf(f), s.workers) + Cost(s.Handed(), f)
  }

  function CostOut(w: Worker, m: WorkerMove, f: File): nat {
    if m.HandOver? && w.phase.Handing? then (if w.phase.outcome.result.Failed? then 2 else 1) * One(w.phase.file, f)
    else 0
  }

  lemma CostSnoc(infos: seq<Info>, i: Info, f: File)
    ensures Cost(infos + [i], f) == Cost(infos, f) + (if i.failed then 2 else 1) * One(i.file, f)
  {
  }

  /** Whatever a move hands over or holds has been paid for with attempts. */
  lemma MoveSpends(c: Config, s: State, w: Worker, m: WorkerMove, f: File)
    requires !s.interrupted && WorkerFits(s, w) && WorkerCan(c, s, w, m)
    ensures var w' := Moved(c, s, w, m); Spent(w', f) + CostOut(w, m, f) <= Spent(w, f) + Try(s, w, w', m, f)
  {
    var w' := Moved(c, s, w, m);
    if m.NextRetry? {
      Uncons(w.retry, f);
    } else if (m.Fail? || m.Delete?) && w.stage.Main? {
      Snoc(w.retry, w.phase.file, f);
    } else {
      assert w'.retry == w.retry;
    }
  }

  lemma MoveCosts(c: Config, s: State, i: nat, m: WorkerMove, f: File)
    requires i < |s.workers| && WorkerCan(c, s, s.workers[i], m)
    ensures Cost(WorkerStep(c, s, i, m).Handed(), f) == Cost(s.Handed(), f) + CostOut(s.workers[i], m, f)
  {
    var w, t := s.workers[i], WorkerStep(c, s, i, m);
    if m.HandOver? {
      var info := Info(w.phase.file, w.phase.outcome.result.Failed?);
      CostSnoc(s.Handed(), info, f);
      assert t.Handed() == s.Handed() + [info];
    } else {
      assert t.Handed() == s.Handed();
    }
  }

  lemma WorkerKeepsTrying(c: Config, s: State, i: nat, m: WorkerMove, f: File)
    requires TriedEnough(s, f) && i < |s.workers| && WorkerFits(s, s.workers[i]) && WorkerCan(c, s, s.workers[i], m)
    ensures TriedEnough(WorkerStep(c, s, i, m), f)
  {
    if !s.interrupted {
      MoveSpends(c, s, s.workers[i], m, f);
      MoveCosts(c, s, i, m, f);
      MoveTells(c, s, i, m, f);
      SumUpdate(SpentOf(f), s.workers, i, Moved(c, s, s.workers[i], m));
    }
  }

  lemma MainKeepsTrying(s: State, f: File)
    requires TriedEnough(s, f) && Disciplined(s) && MainCan(s)
    ensures TriedEnough(MainStep(s), f)
  {
    var t := MainStep(s);
    assert t.Handed() == s.Handed() && t.history == s.history && t.interrupted == s.interrupted;
    if s.main.stage.Starting? && s.main.stage.started < |s.workers| {
      var n := s.main.stage.started;
      assert WorkerFits(s, s.workers[n]);
      SumUpdate(SpentOf(f), s.workers, n, t.workers[n]);
    }
  }

  /** The other actors do not touch what matters here. */
  predicate Alike(s: State, t: State) {
    && t.workers == s.workers && t.history.tried == s.history.tried && t.Handed() == s.Handed()
    && (s.interrupted ==> t.interrupted)
  }

  lemma ScraperIsAlike(s: State, m: ScraperMove)
    requires ScraperCan(s, m)
    ensures Alike(s, ScraperStep(s, m))
  {
  }

  lemma CleanerIsAlike(c: Config, s: State, m: CleanerMove)
    requires CleanerCan(c, s, m)
    ensures Alike(s, CleanerStep(c, s, m))
  {
    assert CleanerStep(c, s, m).Handed() == s.Handed();
  }

  lemma ReporterIsAlike(s: State, m: ReporterMove)
    requires ReporterCan(s, m)
    ensures Alike(s, ReporterStep(s, m))
  {
  }

  lemma StepKeepsTrying(c: Config, s: State, step: Step, f: File)
    requires Disciplined(s) && TriedEnough(s, f) && Can(c, s, step)
    ensures TriedEnough(After(c, s, step), f)
  {
    match step
    case Interrupt =>
    case ByScraper(m) => ScraperIsAlike(s, m);
    case ByWorker(i, m) =>
      assert WorkerFits(s, s.workers[i]);
      WorkerKeepsTrying(c, s, i, m, f);
    case ByCleaner(m) => CleanerIsAlike(c, s, m);
    case ByReporter(m) => ReporterIsAlike(s, m);
    case ByMain => MainKeepsTrying(s, f);
  }

  lemma {:induction false} TriesOn(c: Config, s: State, steps: seq<Step>, f: File)
    requires Disciplined(s) && TriedEnough(s, f) && Runs(c, s, steps)
    ensures TriedEnough(End(c, s, steps), f)
    decreases steps
  {
    if steps == [] {
    } else {
      StepKeepsDiscipline(c, s, steps[0]);
      StepKeepsTrying(c, s, steps[0], f);
      TriesOn(c, After(c, s, steps[0]), steps[1..], f);
    }
  }

  /**
   * As long as there is no interrupt, a file has been tried once for each time it has been
   * handed over as transferred or skipped, and twice for each time it has been handed over
   * as failed, or more often.
   */
  lemma FailsAfterTwoTries(c: Config, steps: seq<Step>, f: File)
    requires Runs(c, Start(c), steps) && !End(c, Start(c), steps).interrupted
    ensures var s := End(c, Start(c), steps);
      multiset(s.Handed())[Info(f, false)] + 2 * multiset(s.Handed())[Info(f, true)] <= N(s.history.tried, f)
  {
    StartIsDisciplined(c);
    AllUnstarted(SpentOf(f), c.workers);
    assert Start(c).Handed() == [];
    TriesOn(c, Start(c), steps, f);
  }
}
