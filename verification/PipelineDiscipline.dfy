/**
 * The discipline of channels and wait groups: nothing is sent to a closed channel, no run
 * gets stuck, and every run comes to an end.
 */
module PipelineDiscipline {
  import opened Base
  import opened Objects
  import opened Cleanup
  import Scraping
  import opened Pipeline

  // ----- sums over the transferors -----

  type Count = Worker -> nat

  function Sum(f: Count, ws: seq<Worker>): nat {
    if ws == [] then 0 else f(ws[0]) + Sum(f, ws[1..])
  }

  lemma {:induction false} SumUpdate(f: Count, ws: seq<Worker>, i: nat, w: Worker)
    requires i < |ws|
    ensures Sum(f, ws[i := w]) + f(ws[i]) == Sum(f, ws) + f(w)
    decreases ws
  {
    if i == 0 {
      assert ws[0 := w][1..] == ws[1..];
    } else {
      assert ws[i := w][1..] == ws[1..][i - 1 := w];
      SumUpdate(f, ws[1..], i - 1, w);
    }
  }

  lemma {:induction false} SumIsZero(f: Count, ws: seq<Worker>)
    ensures Sum(f, ws) == 0 <==> forall w | w in ws :: f(w) == 0
    decreases ws
  {
    if ws == [] {
    } else {
      SumIsZero(f, ws[1..]);
      assert forall w :: w in ws <==> w == ws[0] || w in ws[1..];
    }
  }

  /** Whether the transferor still counts in the wait groups. */
  function InGroup(w: Worker): nat {
    if w.stage.Unstarted? || w.stage.Releasing? || w.stage.Gone? then 0 else 1
  }

  function InTransfer(w: Worker): nat {
    if w.stage.Unstarted? || w.stage.Gone? then 0 else 1
  }

  // ----- the invariant -----

  /** The first queue is empty and remains so. */
  predicate Dry(s: State) {
    s.queue1 == [] && s.Queue1Closed()
  }

  predicate WorkerFits(s: State, w: Worker) {
    match w.stage
    case Unstarted => w == Worker(Unstarted, Idle, [])
    case Main => (w.phase.Handing? || w.phase.Reporting?) ==> !w.phase.outcome.result.Failed?
    case Retrying(aborted) => if aborted then s.interrupted else Dry(s)
    case Draining(aborted) => w.phase.Idle? && w.retry == [] && if aborted then s.interrupted else Dry(s)
    case _ => w.phase.Idle? && w.retry == [] && Dry(s)
  }

  predicate WorkersFit(s: State) {
    forall i | 0 <= i < |s.workers| :: WorkerFits(s, s.workers[i])
  }

  predicate AllGone(s: State) {
    forall i | 0 <= i < |s.workers| :: s.workers[i].stage.Gone?
  }

  predicate StartsInOrder(s: State) {
    match s.main.stage
    case Starting(n) =>
      && n <= |s.workers| && s.cleaner.stage.NotStarted?
      && forall i | 0 <= i < |s.workers| :: s.workers[i].stage.Unstarted? <==> i >= n
    case _ => !s.cleaner.stage.NotStarted? && forall i | 0 <= i < |s.workers| :: !s.workers[i].stage.Unstarted?
  }

  function ScraperInGroup(s: State): nat {
    if s.scraper.stage.ScraperLeft? then 0 else 1
  }

  function CleanerInGroup(s: State): nat {
    if s.cleaner.stage.NotStarted? || s.cleaner.stage.CleanerLeft? then 0 else 1
  }

  /** The wait groups count the actors that have been started and not yet left. */
  predicate GroupsCount(s: State) {
    && s.main.wgTransfer == Sum(InTransfer, s.workers)
    && s.main.wg == Sum(InGroup, s.workers) + ScraperInGroup(s) + CleanerInGroup(s)
    && s.main.wgReport == if s.reporter.stage.ReporterLeft? then 0 else 1
  }

  predicate Collects(stage: CleanerStage) {
    stage.NotStarted? || stage.Collecting?
  }

  /** What follows from a channel having been closed, or from the cleaner having seen that. */
  predicate ClosesInOrder(s: State) {
    && (s.Queue2Closed() ==> AllGone(s))
    && (s.ReportClosed() ==> s.scraper.stage.ScraperLeft? && s.cleaner.stage.CleanerLeft?)
    && (!Collects(s.cleaner.stage) ==> s.Queue2Closed() && s.queue2 == [])
    && (s.reporter.stage.Finished? || s.reporter.stage.ReporterLeft? ==> s.ReportClosed())
    && (s.main.stage.Exited? ==> s.reporter.stage.ReporterLeft?)
  }

  /** Files are only left out after an interrupt. */
  predicate LeftOutOnInterrupt(s: State) {
    !s.interrupted ==> !s.scraper.early && s.history.drained == []
  }

  predicate Capacities(s: State) {
    |s.queue1| <= CAPACITY && |s.queue2| <= CAPACITY
  }

  predicate Disciplined(s: State) {
    && Capacities(s)
    && WorkersFit(s)
    && StartsInOrder(s)
    && GroupsCount(s)
    && ClosesInOrder(s)
    && LeftOutOnInterrupt(s)
  }

  // ----- it holds in every reachable state -----

  lemma {:induction false} AllUnstarted(f: Count, n: nat)
    requires f(Worker(Unstarted, Idle, [])) == 0
    ensures Sum(f, seq(n, _ => Worker(Unstarted, Idle, []))) == 0
  {
    SumIsZero(f, seq(n, _ => Worker(Unstarted, Idle, [])));
  }

  lemma StartIsDisciplined(c: Config)
    ensures Disciplined(Start(c))
  {
    AllUnstarted(InTransfer, c.workers);
    AllUnstarted(InGroup, c.workers);
  }

  lemma ScraperKeepsDiscipline(s: State, m: ScraperMove)
    requires Disciplined(s) && ScraperCan(s, m)
    ensures Disciplined(ScraperStep(s, m))
  {
    var t := ScraperStep(s, m);
    assert t.workers == s.workers;
    forall i | 0 <= i < |t.workers|
      ensures WorkerFits(t, t.workers[i])
    {
      assert WorkerFits(s, s.workers[i]);
    }
  }

  lemma WorkerMoveFits(c: Config, s: State, i: nat, m: WorkerMove)
    requires Disciplined(s) && i < |s.workers| && WorkerCan(c, s, s.workers[i], m)
    ensures WorkersFit(WorkerStep(c, s, i, m))
  {
    var t := WorkerStep(c, s, i, m);
    forall k | 0 <= k < |t.workers|
      ensures WorkerFits(t, t.workers[k])
    {
      assert WorkerFits(s, s.workers[k]) && WorkerFits(s, s.workers[i]);
    }
  }

  lemma WorkerMoveCounts(c: Config, s: State, i: nat, m: WorkerMove)
    requires GroupsCount(s) && i < |s.workers| && WorkerCan(c, s, s.workers[i], m) && WorkerFits(s, s.workers[i])
    ensures GroupsCount(WorkerStep(c, s, i, m))
  {
    var w' := Moved(c, s, s.workers[i], m);
    SumUpdate(InTransfer, s.workers, i, w');
    SumUpdate(InGroup, s.workers, i, w');
    assert WorkerStep(c, s, i, m).workers == s.workers[i := w'];
  }

  lemma WorkerKeepsDiscipline(c: Config, s: State, i: nat, m: WorkerMove)
    requires Disciplined(s) && i < |s.workers| && WorkerCan(c, s, s.workers[i], m)
    ensures Disciplined(WorkerStep(c, s, i, m))
  {
    var t := WorkerStep(c, s, i, m);
    var w := s.workers[i];
    assert WorkerFits(s, w);
    WorkerMoveFits(c, s, i, m);
    WorkerMoveCounts(c, s, i, m);
    assert !w.stage.Unstarted? && !w.stage.Gone?;
    assert t.main.stage == s.main.stage && t.cleaner == s.cleaner && t.scraper == s.scraper;
  }

  lemma CleanerKeepsDiscipline(c: Config, s: State, m: CleanerMove)
    requires Disciplined(s) && CleanerCan(c, s, m)
    ensures Disciplined(CleanerStep(c, s, m))
  {
    var t := CleanerStep(c, s, m);
    assert t.workers == s.workers && t.main.stage == s.main.stage && t.scraper == s.scraper;
    forall i | 0 <= i < |t.workers|
      ensures WorkerFits(t, t.workers[i])
    {
      assert WorkerFits(s, s.workers[i]);
    }
  }

  lemma ReporterKeepsDiscipline(s: State, m: ReporterMove)
    requires Disciplined(s) && ReporterCan(s, m)
    ensures Disciplined(ReporterStep(s, m))
  {
    var t := ReporterStep(s, m);
    assert t.workers == s.workers && t.main.stage == s.main.stage;
    forall i | 0 <= i < |t.workers|
      ensures WorkerFits(t, t.workers[i])
    {
      assert WorkerFits(s, s.workers[i]);
    }
  }

  lemma MainCounts(s: State)
    requires GroupsCount(s) && StartsInOrder(s) && WorkersFit(s) && MainCan(s)
    ensures GroupsCount(MainStep(s))
  {
    if s.main.stage.Starting? && s.main.stage.started < |s.workers| {
      var n := s.main.stage.started;
      assert s.workers[n].stage.Unstarted?;
      SumUpdate(InTransfer, s.workers, n, Worker(Main, Idle, []));
      SumUpdate(InGroup, s.workers, n, Worker(Main, Idle, []));
    }
  }

  lemma MainFits(s: State)
    requires StartsInOrder(s) && WorkersFit(s) && MainCan(s)
    ensures WorkersFit(MainStep(s)) && StartsInOrder(MainStep(s))
  {
    var t := MainStep(s);
    forall i | 0 <= i < |t.workers|
      ensures WorkerFits(t, t.workers[i])
    {
      assert WorkerFits(s, s.workers[i]);
    }
  }

  lemma MainKeepsDiscipline(s: State)
    requires Disciplined(s) && MainCan(s)
    ensures Disciplined(MainStep(s))
  {
    MainCounts(s);
    MainFits(s);
    if s.main.stage.WaitTransfer? {
      SumIsZero(InTransfer, s.workers);
      assert forall i | 0 <= i < |s.workers| :: s.workers[i] in s.workers && InTransfer(s.workers[i]) == 0;
    }
  }

  lemma StepKeepsDiscipline(c: Config, s: State, step: Step)
    requires Disciplined(s) && Can(c, s, step)
    ensures Disciplined(After(c, s, step))
  {
    match step
    case Interrupt =>
      forall i | 0 <= i < |s.workers|
        ensures WorkerFits(After(c, s, step), s.workers[i])
      {
        assert WorkerFits(s, s.workers[i]);
      }
    case ByScraper(m) => ScraperKeepsDiscipline(s, m);
    case ByWorker(i, m) => WorkerKeepsDiscipline(c, s, i, m);
    case ByCleaner(m) => CleanerKeepsDiscipline(c, s, m);
    case ByReporter(m) => ReporterKeepsDiscipline(s, m);
    case ByMain => MainKeepsDiscipline(s);
  }

  lemma AlwaysDisciplined(c: Config, steps: seq<Step>)
    requires Runs(c, Start(c), steps)
    ensures Disciplined(End(c, Start(c), steps))
  {
    StartIsDisciplined(c);
    forall s: State, step: Step | Disciplined(s) && Can(c, s, step)
      ensures Disciplined(After(c, s, step))
    {
      StepKeepsDiscipline(c, s, step);
    }
    Always(c, Disciplined, Start(c), steps);
  }

  lemma WorkersStay(c: Config, steps: seq<Step>)
    requires Runs(c, Start(c), steps)
    ensures |End(c, Start(c), steps).workers| == c.workers
  {
    Always(c, (s: State) => |s.workers| == c.workers, Start(c), steps);
  }
}
