/** Runs do not get stuck and come to an end. */
module PipelineProgress {
  import opened Base
  import opened Objects
  import opened Cleanup
  import Scraping
  import opened Pipeline
  import opened PipelineDiscipline

  // ----- closed channels -----

  predicate SendsToQueue1(s: State, step: Step) {
    step.ByScraper? && step.sm.Perform? && s.scraper.acts != [] && s.scraper.acts[0].Send?
  }

  predicate SendsToQueue2(step: Step) {
    step.ByWorker? && step.wm.HandOver?
  }

  predicate SendsToReport(s: State, step: Step) {
    || (step.ByScraper? && step.sm.Perform? && s.scraper.acts != [] && s.scraper.acts[0].Tell?)
    || (step.ByWorker? && step.wm.Report?)
    || (step.ByCleaner? && step.cm.TellCleanup?)
  }

  /** Whatever has happened so far, the next step does not send to a closed channel. */
  lemma NoSendAfterClose(c: Config, steps: seq<Step>, step: Step)
    requires Runs(c, Start(c), steps) && Can(c, End(c, Start(c), steps), step)
    ensures var s := End(c, Start(c), steps);
      && (SendsToQueue1(s, step) ==> !s.Queue1Closed())
      && (SendsToQueue2(step) ==> !s.Queue2Closed())
      && (SendsToReport(s, step) ==> !s.ReportClosed())
  {
    AlwaysDisciplined(c, steps);
    SendsWhileOpen(c, End(c, Start(c), steps), step);
  }

  lemma SendsWhileOpen(c: Config, s: State, step: Step)
    requires Disciplined(s) && Can(c, s, step)
    ensures SendsToQueue1(s, step) ==> !s.Queue1Closed()
    ensures SendsToQueue2(step) ==> !s.Queue2Closed()
    ensures SendsToReport(s, step) ==> !s.ReportClosed()
  {
    if step.ByWorker? {
      assert WorkerFits(s, s.workers[step.i]);
    }
  }

  // ----- no deadlock -----

  ghost predicate CanMove(c: Config, s: State, i: nat) {
    i < |s.workers| && exists m :: WorkerCan(c, s, s.workers[i], m)
  }

  /**
   * A transferor that has been started and has not left can move, or waits for the scraper,
   * for room in the second queue, or for the report actor.
   */
  lemma WorkerMovesOrWaits(c: Config, s: State, i: nat)
    requires Disciplined(s) && i < |s.workers| && !s.workers[i].stage.Unstarted? && !s.workers[i].stage.Gone?
    ensures CanMove(c, s, i) || (s.queue1 == [] && !s.Queue1Closed()) || |s.queue2| == CAPACITY
      || !s.reporter.stage.Receiving?
  {
    var w := s.workers[i];
    assert WorkerFits(s, w);
    if |s.queue2| < CAPACITY && (s.queue1 != [] || s.Queue1Closed()) && s.reporter.stage.Receiving? {
      var m := match w.phase
        case Trying(f) => if c.Fixed(f) then SkipImmutable else Look
        case Looked(_, _) => Fail
        case Deleting(_) => Delete(None)
        case Handing(_, _) => HandOver
        case Reporting(_, _) => Report
        case Idle =>
          match w.stage {
            case Main => if s.queue1 != [] then Take else SeeClosed
            case Retrying(_) => if w.retry != [] then NextRetry else EndRetry
            case Draining(_) => if s.queue1 != [] then Drain else EndDrain
            case Ending => Release
            case _ => ReleaseTransfer
          };
      assert WorkerCan(c, s, w, m);
    }
  }

  ghost predicate ScraperMoves(s: State) {
    exists m :: ScraperCan(s, m)
  }

  lemma ScraperMovesOrWaits(s: State)
    requires !s.scraper.stage.ScraperLeft? && s.reporter.stage.Receiving?
    ensures ScraperMoves(s) || (!s.Queue1Closed() && |s.queue1| >= CAPACITY)
  {
    var sc := s.scraper;
    var m :=
      if sc.stage.ScraperDone? then LeaveScraper
      else if sc.acts != [] then Perform
      else if sc.iterations == [] then Finish
      else if s.interrupted then StopEarly else NextIteration;
    assert ScraperCan(s, m) || (!s.Queue1Closed() && |s.queue1| >= CAPACITY);
  }

  ghost predicate CleanerMoves(c: Config, s: State) {
    exists m :: CleanerCan(c, s, m)
  }

  lemma CleanerMovesOrWaits(c: Config, s: State)
    requires !s.cleaner.stage.NotStarted? && !s.cleaner.stage.CleanerLeft? && s.reporter.stage.Receiving?
    ensures CleanerMoves(c, s) || (s.queue2 == [] && !s.Queue2Closed())
  {
    var stage := s.cleaner.stage;
    if stage.Cleaning? && stage.todo != {} && !s.interrupted {
      var job :| job in stage.todo;
      assert CleanerCan(c, s, CleanJob(job, {}));
    } else {
      var m := match stage
        case Collecting => if s.queue2 != [] then Collect else SeeInputClosed
        case Checking => CheckInterrupt
        case Cleaning(todo, _) => if todo == {} then EndCleaning else StopCleaning
        case Telling(_, _, _) => TellCleanup
        case _ => LeaveCleaner;
      assert CleanerCan(c, s, m) || (s.queue2 == [] && !s.Queue2Closed());
    }
  }

  ghost predicate ReporterMoves(s: State) {
    exists m :: ReporterCan(s, m)
  }

  /** The report actor waits for an event, or can move, or has left. */
  lemma ReporterMovesOrReceives(s: State)
    ensures ReporterMoves(s) || (s.reporter.stage.Receiving? && !s.ReportClosed()) || s.reporter.stage.ReporterLeft?
  {
    var m :=
      if s.reporter.stage.Marking? then MarkEvent
      else if s.reporter.stage.Finished? then LeaveReporter
      else FinishReport;
    assert ReporterCan(s, m) || (s.reporter.stage.Receiving? && !s.ReportClosed()) || s.reporter.stage.ReporterLeft?;
  }

  /** A step other than the interrupt. */
  ghost predicate Proceeds(c: Config, s: State) {
    exists step: Step :: !step.Interrupt? && Can(c, s, step)
  }

  lemma Proceed(c: Config, s: State)
    ensures ScraperMoves(s) || CleanerMoves(c, s) || ReporterMoves(s) || MainCan(s) ==> Proceeds(c, s)
    ensures forall i: nat :: CanMove(c, s, i) ==> Proceeds(c, s)
  {
    if ScraperMoves(s) {
      var m :| ScraperCan(s, m);
      assert Can(c, s, ByScraper(m));
    } else if CleanerMoves(c, s) {
      var m :| CleanerCan(c, s, m);
      assert Can(c, s, ByCleaner(m));
    } else if ReporterMoves(s) {
      var m :| ReporterCan(s, m);
      assert Can(c, s, ByReporter(m));
    } else if MainCan(s) {
      assert Can(c, s, ByMain);
    }
    forall i: nat | CanMove(c, s, i)
      ensures Proceeds(c, s)
    {
      var m :| WorkerCan(c, s, s.workers[i], m);
      assert Can(c, s, ByWorker(i, m));
    }
  }

  /** The transfer phase does not get stuck: if main waits for a transferor, then somebody moves. */
  lemma TransferProceeds(c: Config, s: State)
    requires Disciplined(s) && s.main.stage.WaitTransfer? && !MainCan(s) && s.reporter.stage.Receiving?
    ensures Proceeds(c, s)
  {
    Proceed(c, s);
    SumIsZero(InTransfer, s.workers);
    var w :| w in s.workers && InTransfer(w) != 0;
    var i :| 0 <= i < |s.workers| && s.workers[i] == w;
    WorkerMovesOrWaits(c, s, i);
    assert CanMove(c, s, i) ==> Proceeds(c, s);
    if s.queue1 == [] && !s.Queue1Closed() {
      ScraperMovesOrWaits(s);
    }
    if |s.queue2| == CAPACITY {
      CleanerMovesOrWaits(c, s);
    }
  }

  /** When all transferors are gone, the scraper and the cleaner get to their ends. */
  lemma RestProceeds(c: Config, s: State)
    requires Disciplined(s) && s.workers != [] && s.main.stage.WaitAll? && !MainCan(s) && s.reporter.stage.Receiving?
    ensures Proceeds(c, s)
  {
    Proceed(c, s);
    SumIsZero(InGroup, s.workers);
    assert WorkerFits(s, s.workers[0]) && Dry(s);
    if !s.scraper.stage.ScraperLeft? {
      ScraperMovesOrWaits(s);
    } else {
      CleanerMovesOrWaits(c, s);
    }
  }

  /** No deadlock: until main exits, some actor or main itself can make a step, interrupt or not. */
  lemma NoDeadlock(c: Config, steps: seq<Step>)
    requires c.workers >= 1 && Runs(c, Start(c), steps)
    ensures var s := End(c, Start(c), steps); !s.main.stage.Exited? ==> Proceeds(c, s)
  {
    var s := End(c, Start(c), steps);
    AlwaysDisciplined(c, steps);
    WorkersStay(c, steps);
    Proceed(c, s);
    if !s.main.stage.Exited? && !MainCan(s) {
      ReporterMovesOrReceives(s);
      if ReporterMoves(s) {
      } else if s.main.stage.WaitTransfer? {
        TransferProceeds(c, s);
      } else {
        RestProceeds(c, s);
      }
    }
  }

  // ----- the end of every run -----

  function ActWeight(a: Scraping.Act): nat {
    if a.Send? then 22 else 2
  }

  function ActsWeight(acts: seq<Scraping.Act>): nat {
    if acts == [] then 0 else ActWeight(acts[0]) + ActsWeight(acts[1..])
  }

  function IterationsWeight(iterations: seq<seq<Scraping.Act>>): nat {
    if iterations == [] then 0 else 1 + ActsWeight(iterations[0]) + IterationsWeight(iterations[1..])
  }

  function ScraperWeight(sc: Pipeline.Scraper): nat {
    match sc.stage
    case Scraping => 2 + ActsWeight(sc.acts) + IterationsWeight(sc.iterations)
    case ScraperDone => 1
    case ScraperLeft => 0
  }

  function StageWeight(stage: Stage): nat {
    match stage
    case Unstarted => 6
    case Main => 5
    case Retrying(_) => 4
    case Draining(_) => 3
    case Ending => 2
    case Releasing => 1
    case Gone => 0
  }

  function PhaseWeight(phase: Phase): nat {
    match phase
    case Idle => 0
    case Trying(_) => 10
    case Looked(_, _) => 9
    case Deleting(_) => 8
    case Handing(_, _) => 7
    case Reporting(_, _) => 2
  }

  /** In the main loop, an attempt may be followed by another one. */
  function WorkerWeight(w: Worker): nat {
    var another := if w.stage.Main? && (w.phase.Trying? || w.phase.Looked? || w.phase.Deleting?) then 10 else 0;
    StageWeight(w.stage) + PhaseWeight(w.phase) + another + 11 * |w.retry|
  }

  function CleanerWeight(cl: Pipeline.Cleaner): nat {
    match cl.stage
    case NotStarted => 7 + 3 * |cl.collected|
    case Collecting => 6 + 3 * |cl.collected|
    case Checking => 5 + 3 * |cl.collected|
    case Telling(todo, _, _) => 4 + 3 * |todo|
    case Cleaning(todo, _) => 2 + 3 * |todo|
    case CleanerDone => 1
    case CleanerLeft => 0
  }

  function ReporterWeight(r: Reporter): nat {
    match r.stage
    case Marking(_) => 3
    case Receiving => 2
    case Finished => 1
    case ReporterLeft => 0
  }

  function MainWeight(s: State): nat {
    match s.main.stage
    case Starting(n) => if n <= |s.workers| then 4 + |s.workers| - n else 0
    case WaitTransfer => 3
    case WaitAll => 2
    case WaitReport => 1
    case Exited => 0
  }

  function Measure(s: State): nat {
    (if s.interrupted then 0 else 1) + ScraperWeight(s.scraper) + 21 * |s.queue1| + Sum(WorkerWeight, s.workers)
      + 4 * |s.queue2| + CleanerWeight(s.cleaner) + ReporterWeight(s.reporter) + MainWeight(s)
  }

  lemma {:induction false} JobsAreFewerThanInfos(strategy: Strategies, infos: seq<Info>)
    ensures |JobsIn(strategy, infos)| <= |infos|
    decreases infos
  {
    if infos != [] {
      var last, front := infos[|infos| - 1], infos[..|infos| - 1];
      assert infos == front + [last];
      JobsAreFewerThanInfos(strategy, front);
      assert JobsIn(strategy, infos) == JobsIn(strategy, front)
        + if strategy(last.file.job).KeepUnknownFiles? then {} else {last.file.job};
    } else {
      assert JobsIn(strategy, infos) == {};
    }
  }

  lemma WorkerWeightFalls(c: Config, s: State, w: Worker, m: WorkerMove)
    requires WorkerFits(s, w) && WorkerCan(c, s, w, m)
    ensures WorkerWeight(Moved(c, s, w, m)) + (if m.HandOver? then 4 else 0) + (if m.Report? then 1 else 0)
      < WorkerWeight(w) + (if m.Take? || m.Drain? then 21 else 0)
  {
  }

  /** What a move of the cleaner does to its stage and to its input. */
  predicate StageMoves(stage: CleanerStage, next: CleanerStage, m: CleanerMove, jobs: nat) {
    match m
    case Collect => next == stage && stage.Collecting?
    case SeeInputClosed => stage.Collecting? && next.Checking?
    case CheckInterrupt => stage.Checking? && (next.CleanerDone? || (next.Cleaning? && |next.todo| <= jobs))
    case CleanJob(job, _) =>
      stage.Cleaning? && job in stage.todo && (next.Cleaning? || next.Telling?) && next.todo == stage.todo - {job}
    case TellCleanup => stage.Telling? && next.Cleaning? && next.todo == stage.todo
    case StopCleaning => stage.Cleaning? && next.CleanerDone?
    case EndCleaning => stage.Cleaning? && next.CleanerDone?
    case LeaveCleaner => stage.CleanerDone? && next.CleanerLeft?
  }

  lemma CleanerMoveMovesStage(c: Config, s: State, m: CleanerMove)
    requires CleanerCan(c, s, m)
    ensures var t := CleanerStep(c, s, m);
      && StageMoves(s.cleaner.stage, t.cleaner.stage, m, |s.cleaner.collected|)
      && |t.cleaner.collected| == |s.cleaner.collected| + (if m.Collect? then 1 else 0)
      && |t.queue2| == |s.queue2| - (if m.Collect? then 1 else 0)
      && t.workers == s.workers && t.scraper == s.scraper && t.queue1 == s.queue1 && t.interrupted == s.interrupted
      && t.main.stage == s.main.stage
      && ReporterWeight(t.reporter) == ReporterWeight(s.reporter) + (if m.TellCleanup? then 1 else 0)
  {
    JobsAreFewerThanInfos(c.strategy, s.cleaner.collected);
  }

  lemma CleanerWeightFalls(cl: Pipeline.Cleaner, next: Pipeline.Cleaner, m: CleanerMove)
    requires StageMoves(cl.stage, next.stage, m, |cl.collected|)
    requires |next.collected| == |cl.collected| + (if m.Collect? then 1 else 0)
    ensures CleanerWeight(next) + (if m.TellCleanup? then 1 else 0) < CleanerWeight(cl) + (if m.Collect? then 4 else 0)
  {
    if m.CleanJob? {
      assert |cl.stage.todo - {m.job}| == |cl.stage.todo| - 1;
    }
  }

  lemma ScraperLeadsToTheEnd(s: State, m: ScraperMove)
    requires ScraperCan(s, m)
    ensures Measure(ScraperStep(s, m)) < Measure(s)
  {
    assert ScraperStep(s, m).workers == s.workers;
  }

  lemma WorkerLeadsToTheEnd(c: Config, s: State, i: nat, m: WorkerMove)
    requires Disciplined(s) && i < |s.workers| && WorkerCan(c, s, s.workers[i], m)
    ensures Measure(WorkerStep(c, s, i, m)) < Measure(s)
  {
    var w := s.workers[i];
    assert WorkerFits(s, w);
    WorkerWeightFalls(c, s, w, m);
    SumUpdate(WorkerWeight, s.workers, i, Moved(c, s, w, m));
  }

  lemma CleanerLeadsToTheEnd(c: Config, s: State, m: CleanerMove)
    requires CleanerCan(c, s, m)
    ensures Measure(CleanerStep(c, s, m)) < Measure(s)
  {
    CleanerMoveMovesStage(c, s, m);
    CleanerWeightFalls(s.cleaner, CleanerStep(c, s, m).cleaner, m);
  }

  lemma ReporterLeadsToTheEnd(s: State, m: ReporterMove)
    requires ReporterCan(s, m)
    ensures Measure(ReporterStep(s, m)) < Measure(s)
  {
    assert ReporterStep(s, m).workers == s.workers;
  }

  lemma MainLeadsToTheEnd(s: State)
    requires Disciplined(s) && MainCan(s)
    ensures Measure(MainStep(s)) < Measure(s)
  {
    if s.main.stage.Starting? && s.main.stage.started < |s.workers| {
      var n := s.main.stage.started;
      assert s.workers[n].stage.Unstarted? && WorkerFits(s, s.workers[n]);
      SumUpdate(WorkerWeight, s.workers, n, Worker(Main, Idle, []));
    }
  }

  /** Every step, of whichever actor, brings the run closer to its end. */
  lemma StepsLeadToTheEnd(c: Config, s: State, step: Step)
    requires Disciplined(s) && Can(c, s, step)
    ensures Measure(After(c, s, step)) < Measure(s)
  {
    match step
    case Interrupt =>
    case ByScraper(m) => ScraperLeadsToTheEnd(s, m);
    case ByWorker(i, m) => WorkerLeadsToTheEnd(c, s, i, m);
    case ByCleaner(m) => CleanerLeadsToTheEnd(c, s, m);
    case ByReporter(m) => ReporterLeadsToTheEnd(s, m);
    case ByMain => MainLeadsToTheEnd(s);
  }

  /** No run is longer than the measure of its first state. */
  lemma {:induction false} RunsAreShort(c: Config, s: State, steps: seq<Step>)
    requires Disciplined(s) && Runs(c, s, steps)
    ensures |steps| <= Measure(s)
    decreases steps
  {
    if steps == [] {
    } else {
      StepKeepsDiscipline(c, s, steps[0]);
      StepsLeadToTheEnd(c, s, steps[0]);
      RunsAreShort(c, After(c, s, steps[0]), steps[1..]);
    }
  }

  /** A run that cannot go on, if only by an interrupt, has reached the exit of main. */
  lemma EveryRunExits(c: Config, steps: seq<Step>)
    requires c.workers >= 1 && Runs(c, Start(c), steps)
    ensures |steps| <= Measure(Start(c))
    ensures !Proceeds(c, End(c, Start(c), steps)) <==> End(c, Start(c), steps).main.stage.Exited?
  {
    StartIsDisciplined(c);
    RunsAreShort(c, Start(c), steps);
    NoDeadlock(c, steps);
    AlwaysDisciplined(c, steps);
    var s := End(c, Start(c), steps);
    if s.main.stage.Exited? {
      NothingAfterExit(c, s);
    }
  }

  lemma NothingAfterExit(c: Config, s: State)
    requires Disciplined(s) && s.main.stage.Exited?
    ensures !Proceeds(c, s)
  {
    forall i, m | 0 <= i < |s.workers|
      ensures !WorkerCan(c, s, s.workers[i], m)
    {
      assert WorkerFits(s, s.workers[i]);
    }
  }
}
