/**
 * The actors, the channels between them and the main function, as a transition system.
 * Any number of transferors run; any actor that can make a step may be the next one, and
 * the interrupt may come at any time. A channel with a buffer accepts what fits into it,
 * and the one without a buffer accepts an event when its receiver waits for one. Sending
 * to a channel is possible even if it has been closed: that this never happens is a theorem.
 */
module Pipeline {
  import opened Base
  import opened Objects
  import opened Cleanup
  import R = Reports
  import opened Scraping

  /** The capacity of both buffered channels. */
  const CAPACITY: nat := 10

  /** What a stored validator identifies. */
  type Version = string

  type Target = map<ObjectName, Version>

  /**
   * `script` is what the iterations of the scraper do, `version` what the source has (no
   * step depends on it), `before` the target before the run, and `owns` whether an object
   * belongs to the target of a job.
   */
  datatype Config = Config(
    script: seq<seq<Act>>,
    workers: nat,
    strategy: Strategies,
    name: Names,
    version: File -> Version,
    immutable: File -> bool,
    owns: (JobId, ObjectName) -> bool,
    before: Target) {

    /** The snapshot `FileExists` of a job. */
    function Existing(job: JobId): set<ObjectName> {
      set n | n in before && owns(job, n)
    }

    /** A file that is skipped without a look at the target. */
    predicate Fixed(f: File) {
      immutable(f) && name(f) in before && owns(f.job, name(f))
    }
  }

  // ----- scraper -----

  datatype ScraperStage = Scraping | ScraperDone | ScraperLeft

  /** `acts` remain of the current iteration; `early` if the interrupt was seen. */
  datatype Scraper = Scraper(stage: ScraperStage, acts: seq<Act>, iterations: seq<seq<Act>>, early: bool)

  datatype ScraperMove = NextIteration | StopEarly | Finish | Perform | LeaveScraper

  // ----- transferors -----

  datatype Stage =
    | Unstarted
    | Main
    | Retrying(aborted: bool)
    | Draining(aborted: bool)
    | Ending
    | Releasing
    | Gone

  datatype Outcome = Outcome(result: TransferResult, bytes: nat)

  /** Where a transferor is with the file that it has in its hands. */
  datatype Phase =
    | Idle
    | Trying(file: File)
    | Looked(file: File, found: Option<Version>)
    | Deleting(file: File)
    | Handing(file: File, outcome: Outcome)
    | Reporting(file: File, outcome: Outcome)

  /** `retry` is `filesToRetry`. */
  datatype Worker = Worker(stage: Stage, phase: Phase, retry: seq<File>)

  /**
   * `Look` is the HEAD request to the target; `Skip` covers an unchanged source and a
   * symlink that is already there; `Fail` a failure before anything was written. A failed
   * upload and the attempt to delete what it left may leave anything behind.
   */
  datatype WorkerMove =
    | Take
    | SeeClosed
    | SeeInterrupt
    | SkipImmutable
    | Look
    | Skip
    | Upload(bytes: nat, version: Version)
    | Fail
    | FailUpload(left: Option<Version>)
    | Delete(left: Option<Version>)
    | HandOver
    | Report
    | NextRetry
    | EndRetry
    | Drain
    | EndDrain
    | Release
    | ReleaseTransfer

  // ----- cleaner -----

  /** `todo` are the jobs that the cleaner still looks at. */
  datatype CleanerStage =
    | NotStarted
    | Collecting
    | Checking
    | Cleaning(todo: set<JobId>, failed: set<JobId>)
    | Telling(todo: set<JobId>, failed: set<JobId>, objects: nat)
    | CleanerDone
    | CleanerLeft

  /** `cleaned` and `troubled` are the jobs whose bulk delete has succeeded, or not (entirely). */
  datatype Cleaner = Cleaner(stage: CleanerStage, collected: seq<Info>, cleaned: set<JobId>, troubled: set<JobId>)

  /** `CleanJob` says what the bulk delete deletes, if it comes to that. */
  datatype CleanerMove = Collect | SeeInputClosed | CheckInterrupt | CleanJob(job: JobId, deleted: set<ObjectName>)
    | StopCleaning | TellCleanup | EndCleaning | LeaveCleaner

  // ----- report -----

  /** `Marking` while an event is being counted. */
  datatype ReporterStage = Receiving | Marking(event: ReportEvent) | Finished | ReporterLeft

  datatype Reporter = Reporter(stage: ReporterStage, stats: R.Stats, exitCode: nat)

  datatype ReporterMove = MarkEvent | FinishReport | LeaveReporter

  // ----- main -----

  /**
   * `Starting(n)`: `n` transferors have been started. The channels are closed by entering
   * `WaitAll` and `WaitReport`.
   */
  datatype MainStage = Starting(started: nat) | WaitTransfer | WaitAll | WaitReport | Exited

  datatype Controller = Controller(stage: MainStage, wg: int, wgTransfer: int, wgReport: int)

  // ----- all of it -----

  /** What has happened: files sent by the scraper, tried, reported and thrown away. */
  datatype History = History(sent: seq<File>, tried: seq<File>, reported: seq<File>, drained: seq<File>)

  /** `log` is what the report actor has received. */
  datatype State = State(
    interrupted: bool,
    scraper: Scraper,
    queue1: seq<File>,
    workers: seq<Worker>,
    queue2: seq<Info>,
    cleaner: Cleaner,
    main: Controller,
    incomplete: set<JobId>,
    target: Target,
    reporter: Reporter,
    log: seq<ReportEvent>,
    history: History) {

    predicate Queue1Closed() {
      !scraper.stage.Scraping?
    }

    predicate Queue2Closed() {
      main.stage.WaitAll? || main.stage.WaitReport? || main.stage.Exited?
    }

    predicate ReportClosed() {
      main.stage.WaitReport? || main.stage.Exited?
    }

    /** What the transferors have told the cleaner. */
    function Handed(): seq<Info> {
      cleaner.collected + queue2
    }
  }

  datatype Step =
    | Interrupt
    | ByScraper(sm: ScraperMove)
    | ByWorker(i: nat, wm: WorkerMove)
    | ByCleaner(cm: CleanerMove)
    | ByReporter(rm: ReporterMove)
    | ByMain

  /** Main has started the report actor and the scraper. */
  function Start(c: Config): State {
    State(
      false,
      Scraper(Scraping, [], c.script, false),
      [],
      seq(c.workers, _ => Worker(Unstarted, Idle, [])),
      [],
      Cleaner(NotStarted, [], {}, {}),
      Controller(Starting(0), 1, 0, 1),
      {},
      c.before,
      Reporter(Receiving, R.NOTHING, 0),
      [],
      History([], [], [], []))
  }

  // ----- steps of the scraper -----

  predicate ScraperCan(s: State, m: ScraperMove) {
    var sc := s.scraper;
    match m
    case NextIteration => sc.stage.Scraping? && sc.acts == [] && sc.iterations != [] && !s.interrupted
    case StopEarly => sc.stage.Scraping? && sc.acts == [] && sc.iterations != [] && s.interrupted
    case Finish => sc.stage.Scraping? && sc.acts == [] && sc.iterations == []
    case Perform =>
      && sc.stage.Scraping? && sc.acts != []
      && (sc.acts[0].Send? ==> |s.queue1| < CAPACITY)
      && (sc.acts[0].Tell? ==> s.reporter.stage.Receiving?)
    case LeaveScraper => sc.stage.ScraperDone?
  }

  function ScraperStep(s: State, m: ScraperMove): State
    requires ScraperCan(s, m)
  {
    var sc := s.scraper;
    match m
    case NextIteration => s.(scraper := sc.(acts := sc.iterations[0], iterations := sc.iterations[1..]))
    case StopEarly => s.(scraper := sc.(stage := ScraperDone, early := true))
    case Finish => s.(scraper := sc.(stage := ScraperDone))
    case Perform => PerformAct(s.(scraper := sc.(acts := sc.acts[1..])), sc.acts[0])
    case LeaveScraper => s.(scraper := sc.(stage := ScraperLeft), main := s.main.(wg := s.main.wg - 1))
  }

  function PerformAct(s: State, a: Act): State {
    match a
    case Send(f) => s.(queue1 := s.queue1 + [f], history := s.history.(sent := s.history.sent + [f]))
    case MarkIncomplete(job) => s.(incomplete := s.incomplete + {job})
    case Tell(event) => s.(log := s.log + [event], reporter := Hears(s.reporter, event))
  }

  /** The report actor with an event that it has received. */
  function Hears(r: Reporter, event: ReportEvent): Reporter {
    r.(stage := Marking(event))
  }

  // ----- steps of a transferor -----

  predicate WorkerCan(c: Config, s: State, w: Worker, m: WorkerMove) {
    match m
    case Take => w.stage.Main? && w.phase.Idle? && s.queue1 != []
    case SeeClosed => w.stage.Main? && w.phase.Idle? && s.queue1 == [] && s.Queue1Closed()
    case SeeInterrupt => w.stage.Main? && w.phase.Idle? && s.interrupted
    case SkipImmutable => w.phase.Trying? && c.Fixed(w.phase.file)
    case Look => w.phase.Trying? && !c.Fixed(w.phase.file)
    case Skip => w.phase.Looked? && w.phase.found.Some?
    case Upload(_, _) => w.phase.Looked?
    case Fail => w.phase.Looked? || (w.phase.Trying? && !c.Fixed(w.phase.file))
    case FailUpload(_) => w.phase.Looked?
    case Delete(_) => w.phase.Deleting?
    case HandOver => w.phase.Handing? && |s.queue2| < CAPACITY
    case Report => w.phase.Reporting? && s.reporter.stage.Receiving?
    case NextRetry => w.stage.Retrying? && w.phase.Idle? && w.retry != []
    case EndRetry => w.stage.Retrying? && w.phase.Idle? && w.retry == []
    case Drain => w.stage.Draining? && s.queue1 != []
    case EndDrain => w.stage.Draining? && s.queue1 == [] && s.Queue1Closed()
    case Release => w.stage.Ending?
    case ReleaseTransfer => w.stage.Releasing?
  }

  /** After a failed attempt: the file is put back, or has failed for good. */
  function Failing(w: Worker, f: File): Worker {
    if w.stage.Main? then w.(phase := Idle, retry := w.retry + [f]) else w.(phase := Handing(f, Outcome(Failed, 0)))
  }

  function Found(t: Target, n: ObjectName): Option<Version> {
    if n in t then Some(t[n]) else None
  }

  /** The transferor after its move. */
  function Moved(c: Config, s: State, w: Worker, m: WorkerMove): Worker
    requires WorkerCan(c, s, w, m)
  {
    match m
    case Take => w.(phase := Trying(s.queue1[0]))
    case SeeClosed => w.(stage := Retrying(false))
    case SeeInterrupt => w.(stage := Retrying(true))
    case SkipImmutable => w.(phase := Handing(w.phase.file, Outcome(Skipped, 0)))
    case Look => w.(phase := Looked(w.phase.file, Found(s.target, c.name(w.phase.file))))
    case Skip => w.(phase := Handing(w.phase.file, Outcome(Skipped, 0)))
    case Upload(bytes, _) => w.(phase := Handing(w.phase.file, Outcome(Success, bytes)))
    case Fail => Failing(w, w.phase.file)
    case FailUpload(_) => w.(phase := Deleting(w.phase.file))
    case Delete(_) => Failing(w, w.phase.file)
    case HandOver => w.(phase := Reporting(w.phase.file, w.phase.outcome))
    case Report => w.(phase := Idle)
    case NextRetry =>
      var w' := w.(retry := w.retry[1..]);
      if w.stage.aborted || s.interrupted then w'.(phase := Handing(w.retry[0], Outcome(Failed, 0)))
      else w'.(phase := Trying(w.retry[0]))
    case EndRetry => w.(stage := Draining(w.stage.aborted))
    case Drain => w
    case EndDrain => w.(stage := Ending)
    case Release => w.(stage := Releasing)
    case ReleaseTransfer => w.(stage := Gone)
  }

  function Store(t: Target, n: ObjectName, left: Option<Version>): Target {
    if left.Some? then t[n := left.value] else t - {n}
  }

  /** The target after a move of a transferor. */
  function TargetAfter(c: Config, t: Target, w: Worker, m: WorkerMove): Target {
    match m
    case Upload(_, version) => if w.phase.Looked? then t[c.name(w.phase.file) := version] else t
    case FailUpload(left) => if w.phase.Looked? then Store(t, c.name(w.phase.file), left) else t
    case Delete(left) => if w.phase.Deleting? then Store(t, c.name(w.phase.file), left) else t
    case _ => t
  }

  function HistoryAfter(h: History, queue1: seq<File>, w: Worker, w': Worker, m: WorkerMove): History {
    if m.Take? && queue1 != [] then h.(tried := h.tried + [queue1[0]])
    else if m.NextRetry? && w'.phase.Trying? then h.(tried := h.tried + [w'.phase.file])
    else if m.Report? && w.phase.Reporting? then h.(reported := h.reported + [w.phase.file])
    else if m.Drain? && queue1 != [] then h.(drained := h.drained + [queue1[0]])
    else h
  }

  function WorkerStep(c: Config, s: State, i: nat, m: WorkerMove): State
    requires i < |s.workers| && WorkerCan(c, s, s.workers[i], m)
  {
    var w := s.workers[i];
    var w' := Moved(c, s, w, m);
    var main :=
      if m.Release? then s.main.(wg := s.main.wg - 1)
      else if m.ReleaseTransfer? then s.main.(wgTransfer := s.main.wgTransfer - 1)
      else s.main;
    var told := if m.Report? then [FileEvent(w.phase.outcome.result, w.phase.outcome.bytes)] else [];
    State(
      s.interrupted,
      s.scraper,
      if m.Take? || m.Drain? then s.queue1[1..] else s.queue1,
      s.workers[i := w'],
      if m.HandOver? then s.queue2 + [Info(w.phase.file, w.phase.outcome.result.Failed?)] else s.queue2,
      s.cleaner,
      main,
      s.incomplete,
      TargetAfter(c, s.target, w, m),
      if m.Report? then Hears(s.reporter, told[0]) else s.reporter,
      s.log + told,
      HistoryAfter(s.history, s.queue1, w, w', m))
  }

  // ----- steps of the cleaner -----

  /** The objects that a cleanup of the job removes. */
  function Deletions(c: Config, s: State, job: JobId): set<ObjectName> {
    c.Existing(job) - TransferredIn(c.name, s.cleaner.collected, job)
  }

  /** A cleanup of the job deletes objects. */
  predicate Deletes(c: Config, s: State, m: CleanerMove) {
    m.CleanJob? && s.cleaner.stage.Cleaning? && m.job !in s.cleaner.stage.failed
      && c.strategy(m.job).DeleteUnknownFiles?
  }

  predicate CleanerCan(c: Config, s: State, m: CleanerMove) {
    var stage := s.cleaner.stage;
    match m
    case Collect => stage.Collecting? && s.queue2 != []
    case SeeInputClosed => stage.Collecting? && s.queue2 == [] && s.Queue2Closed()
    case CheckInterrupt => stage.Checking?
    case CleanJob(job, deleted) =>
      stage.Cleaning? && job in stage.todo && !s.interrupted && (Deletes(c, s, m) ==> deleted <= Deletions(c, s, job))
    case StopCleaning => stage.Cleaning? && stage.todo != {} && s.interrupted
    case TellCleanup => stage.Telling? && s.reporter.stage.Receiving?
    case EndCleaning => stage.Cleaning? && stage.todo == {}
    case LeaveCleaner => stage.CleanerDone?
  }

  function CleanerStep(c: Config, s: State, m: CleanerMove): State
    requires CleanerCan(c, s, m)
  {
    var cl := s.cleaner;
    match m
    case Collect => s.(queue2 := s.queue2[1..], cleaner := cl.(collected := cl.collected + [s.queue2[0]]))
    case SeeInputClosed => s.(cleaner := cl.(stage := Checking))
    case CheckInterrupt =>
      var cleaning := Cleaning(JobsIn(c.strategy, cl.collected), FailedIn(c.strategy, cl.collected, s.incomplete));
      s.(cleaner := cl.(stage := if s.interrupted then CleanerDone else cleaning))
    case CleanJob(job, deleted) =>
      var todo := cl.stage.todo - {job};
      if !Deletes(c, s, m) then s.(cleaner := cl.(stage := Cleaning(todo, cl.stage.failed)))
      else
        var ok := deleted == Deletions(c, s, job);
        var cleaned, troubled := if ok then {job} else {}, if ok then {} else {job};
        var next := Telling(todo, cl.stage.failed, |deleted|);
        s.(target := s.target - deleted,
           cleaner := Cleaner(next, cl.collected, cl.cleaned + cleaned, cl.troubled + troubled))
    case StopCleaning => s.(cleaner := cl.(stage := CleanerDone))
    case TellCleanup =>
      var event := CleanupEvent(cl.stage.objects);
      s.(log := s.log + [event],
         reporter := Hears(s.reporter, event),
         cleaner := cl.(stage := Cleaning(cl.stage.todo, cl.stage.failed)))
    case EndCleaning => s.(cleaner := cl.(stage := CleanerDone))
    case LeaveCleaner => s.(cleaner := cl.(stage := CleanerLeft), main := s.main.(wg := s.main.wg - 1))
  }

  // ----- steps of the report actor -----

  predicate ReporterCan(s: State, m: ReporterMove) {
    match m
    case MarkEvent => s.reporter.stage.Marking?
    case FinishReport => s.reporter.stage.Receiving? && s.ReportClosed()
    case LeaveReporter => s.reporter.stage.Finished?
  }

  function ReporterStep(s: State, m: ReporterMove): State
    requires ReporterCan(s, m)
  {
    var r := s.reporter;
    match m
    case MarkEvent => s.(reporter := r.(stage := Receiving, stats := R.Add(r.stats, r.stage.event)))
    case FinishReport => s.(reporter := r.(stage := Finished, exitCode := R.ExitCodeOf(r.stats)))
    case LeaveReporter =>
      s.(reporter := r.(stage := ReporterLeft), main := s.main.(wgReport := s.main.wgReport - 1))
  }

  // ----- steps of main -----

  predicate MainCan(s: State) {
    match s.main.stage
    case Starting(n) => n <= |s.workers|
    case WaitTransfer => s.main.wgTransfer == 0
    case WaitAll => s.main.wg == 0
    case WaitReport => s.main.wgReport == 0
    case Exited => false
  }

  function MainStep(s: State): State
    requires MainCan(s)
  {
    match s.main.stage
    case Starting(n) =>
      var m := s.main.(wg := s.main.wg + 1);
      if n < |s.workers| then
        s.(workers := s.workers[n := Worker(Main, Idle, [])],
           main := m.(stage := Starting(n + 1), wgTransfer := m.wgTransfer + 1))
      else
        s.(cleaner := s.cleaner.(stage := Collecting), main := m.(stage := WaitTransfer))
    case WaitTransfer => s.(main := s.main.(stage := WaitAll))
    case WaitAll => s.(main := s.main.(stage := WaitReport))
    case WaitReport => s.(main := s.main.(stage := Exited))
  }

  // ----- runs -----

  predicate Can(c: Config, s: State, step: Step) {
    match step
    case Interrupt => !s.interrupted
    case ByScraper(m) => ScraperCan(s, m)
    case ByWorker(i, m) => i < |s.workers| && WorkerCan(c, s, s.workers[i], m)
    case ByCleaner(m) => CleanerCan(c, s, m)
    case ByReporter(m) => ReporterCan(s, m)
    case ByMain => MainCan(s)
  }

  function After(c: Config, s: State, step: Step): State
    requires Can(c, s, step)
  {
    match step
    case Interrupt => s.(interrupted := true)
    case ByScraper(m) => ScraperStep(s, m)
    case ByWorker(i, m) => WorkerStep(c, s, i, m)
    case ByCleaner(m) => CleanerStep(c, s, m)
    case ByReporter(m) => ReporterStep(s, m)
    case ByMain => MainStep(s)
  }

  /** The steps can be made one after the other from `s`. */
  predicate Runs(c: Config, s: State, steps: seq<Step>)
    decreases steps
  {
    steps != [] ==> Can(c, s, steps[0]) && Runs(c, After(c, s, steps[0]), steps[1..])
  }

  function End(c: Config, s: State, steps: seq<Step>): State
    requires Runs(c, s, steps)
    decreases steps
  {
    if steps == [] then s else End(c, After(c, s, steps[0]), steps[1..])
  }

  /** A property of states that holds at the start and is kept by every step holds after every run. */
  lemma {:induction false} Always(c: Config, property: State -> bool, s: State, steps: seq<Step>)
    requires Runs(c, s, steps) && property(s)
    requires forall t: State, step: Step | property(t) && Can(c, t, step) :: property(After(c, t, step))
    ensures property(End(c, s, steps))
    decreases steps
  {
    if steps == [] {
    } else {
      Always(c, property, After(c, s, steps[0]), steps[1..]);
    }
  }
}
