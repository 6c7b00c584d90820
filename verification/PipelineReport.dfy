/** What the report actor gets to hear, and the exit code. */
module PipelineReport {
  import opened Base
  import opened Objects
  import opened Reports
  import Scraping
  import opened Pipeline
  import opened PipelineDiscipline
  import opened PipelineProgress
  import opened PipelineScript

  type EventKind = ReportEvent -> bool

  type InfoKind = Info -> bool

  function Infos(infos: seq<Info>, q: InfoKind): nat {
    if infos == [] then 0 else (if q(infos[|infos| - 1]) then 1 else 0) + Infos(infos[..|infos| - 1], q)
  }

  lemma InfosSnoc(infos: seq<Info>, i: Info, q: InfoKind)
    ensures Infos(infos + [i], q) == Infos(infos, q) + if q(i) then 1 else 0
  {
    assert (infos + [i])[..|infos|] == infos;
  }

  lemma {:induction false} InfosArePositive(infos: seq<Info>, q: InfoKind)
    ensures Infos(infos, q) > 0 <==> exists i :: i in infos && q(i)
    decreases infos
  {
    if infos == [] {
    } else {
      var front, last := infos[..|infos| - 1], infos[|infos| - 1];
      InfosArePositive(front, q);
      assert infos == front + [last];
    }
  }

  /** A kind of events, as a kind of what is handed over to the cleaner. */
  ghost predicate Matches(p: EventKind, q: InfoKind) {
    && (forall result, bytes, f :: p(FileEvent(result, bytes)) == q(Info(f, result.Failed?)))
    && forall n :: !p(CleanupEvent(n))
  }

  /** The event that a transferor has still to report. */
  function Due(p: EventKind): Count {
    (w: Worker) => if w.phase.Reporting? && p(FileEvent(w.phase.outcome.result, w.phase.outcome.bytes)) then 1 else 0
  }

  /** Of every kind, there are the events that the scraper wants to tell and one for each file handed over. */
  predicate Accounted(c: Config, s: State, p: EventKind, q: InfoKind) {
    && CountOf(s.log, p) + CountOf(ToldIn(ToDo(s)), p) + Sum(Due(p), s.workers)
       == CountOf(ToldIn(Flat(c.script)), p) + Infos(s.Handed(), q)
    && CountOf(ToldIn(ToDo(s)), p) <= CountOf(ToldIn(Flat(c.script)), p)
  }

  /** Telling moves an event from what is to be told to the log. */
  lemma ToldFirst(a: Scraping.Act, rest: seq<Scraping.Act>, log: seq<ReportEvent>, p: EventKind)
    ensures var added := if a.Tell? then [a.event] else [];
      CountOf(log + added, p) + CountOf(ToldIn(rest), p) == CountOf(log, p) + CountOf(ToldIn([a] + rest), p)
  {
    assert ([a] + rest)[1..] == rest;
    if a.Tell? {
      CountConcat(log, [a.event], p);
      CountConcat([a.event], ToldIn(rest), p);
    } else {
      assert log + [] == log;
      assert [] + ToldIn(rest) == ToldIn(rest);
    }
  }

  lemma ScraperKeepsAccount(c: Config, s: State, m: ScraperMove, p: EventKind, q: InfoKind)
    requires Accounted(c, s, p, q) && ScraperCan(s, m)
    ensures Accounted(c, ScraperStep(s, m), p, q)
  {
    var sc, t := s.scraper, ScraperStep(s, m);
    assert t.workers == s.workers && t.Handed() == s.Handed();
    if m.Perform? {
      var a := sc.acts[0];
      assert t.scraper.acts == sc.acts[1..] && t.scraper.iterations == sc.iterations;
      assert ToDo(s) == [a] + ToDo(t);
      ToldFirst(a, ToDo(t), s.log, p);
      assert t.log == s.log + if a.Tell? then [a.event] else [];
    } else {
      assert ToDo(t) == ToDo(s);
    }
  }

  lemma HandingMakesDue(c: Config, s: State, i: nat, p: EventKind, q: InfoKind)
    requires Matches(p, q) && i < |s.workers| && WorkerCan(c, s, s.workers[i], HandOver)
    ensures var w, t := s.workers[i], WorkerStep(c, s, i, HandOver);
      && t.log == s.log && Due(p)(w) == 0
      && Infos(t.Handed(), q) == Infos(s.Handed(), q) + Due(p)(Moved(c, s, w, HandOver))
  {
    var w := s.workers[i];
    var info := Info(w.phase.file, w.phase.outcome.result.Failed?);
    assert WorkerStep(c, s, i, HandOver).Handed() == s.Handed() + [info];
    InfosSnoc(s.Handed(), info, q);
  }

  lemma ReportingPays(c: Config, s: State, i: nat, p: EventKind)
    requires i < |s.workers| && WorkerCan(c, s, s.workers[i], WorkerMove.Report)
    ensures var w, t := s.workers[i], WorkerStep(c, s, i, WorkerMove.Report);
      && t.Handed() == s.Handed() && Due(p)(Moved(c, s, w, WorkerMove.Report)) == 0
      && CountOf(t.log, p) == CountOf(s.log, p) + Due(p)(w)
  {
    var w := s.workers[i];
    CountSnoc(s.log, FileEvent(w.phase.outcome.result, w.phase.outcome.bytes), p);
  }

  /** Handing over makes an event due, and reporting pays it. */
  lemma MoveReports(c: Config, s: State, i: nat, m: WorkerMove, p: EventKind, q: InfoKind)
    requires Matches(p, q) && i < |s.workers| && WorkerCan(c, s, s.workers[i], m)
    ensures var w, t := s.workers[i], WorkerStep(c, s, i, m);
      CountOf(t.log, p) + Due(p)(Moved(c, s, w, m)) + Infos(s.Handed(), q)
      == CountOf(s.log, p) + Due(p)(w) + Infos(t.Handed(), q)
  {
    if m.HandOver? {
      HandingMakesDue(c, s, i, p, q);
    } else if m.Report? {
      ReportingPays(c, s, i, p);
    } else {
      var t := WorkerStep(c, s, i, m);
      assert t.Handed() == s.Handed() && t.log == s.log;
    }
  }

  lemma WorkerKeepsAccount(c: Config, s: State, i: nat, m: WorkerMove, p: EventKind, q: InfoKind)
    requires Matches(p, q) && Accounted(c, s, p, q) && i < |s.workers| && WorkerCan(c, s, s.workers[i], m)
    ensures Accounted(c, WorkerStep(c, s, i, m), p, q)
  {
    MoveReports(c, s, i, m, p, q);
    SumUpdate(Due(p), s.workers, i, Moved(c, s, s.workers[i], m));
    assert WorkerStep(c, s, i, m).scraper == s.scraper;
  }

  lemma CleanerKeepsAccount(c: Config, s: State, m: CleanerMove, p: EventKind, q: InfoKind)
    requires Matches(p, q) && Accounted(c, s, p, q) && CleanerCan(c, s, m)
    ensures Accounted(c, CleanerStep(c, s, m), p, q)
  {
    var t := CleanerStep(c, s, m);
    assert t.workers == s.workers && t.Handed() == s.Handed() && t.scraper == s.scraper;
    if m.TellCleanup? {
      CountSnoc(s.log, CleanupEvent(s.cleaner.stage.objects), p);
    } else {
      assert t.log == s.log;
    }
  }

  lemma MainKeepsAccount(c: Config, s: State, p: EventKind, q: InfoKind)
    requires Accounted(c, s, p, q) && Disciplined(s) && MainCan(s)
    ensures Accounted(c, MainStep(s), p, q)
  {
    var t := MainStep(s);
    assert t.Handed() == s.Handed() && ToDo(t) == ToDo(s) && t.log == s.log;
    if s.main.stage.Starting? && s.main.stage.started < |s.workers| {
      var n := s.main.stage.started;
      assert WorkerFits(s, s.workers[n]);
      SumUpdate(Due(p), s.workers, n, t.workers[n]);
    }
  }

  lemma StepKeepsAccount(c: Config, s: State, step: Step, p: EventKind, q: InfoKind)
    requires Matches(p, q) && Accounted(c, s, p, q) && Disciplined(s) && Can(c, s, step)
    ensures Accounted(c, After(c, s, step), p, q)
  {
    match step
    case Interrupt =>
      assert After(c, s, step).Handed() == s.Handed() && ToDo(After(c, s, step)) == ToDo(s);
    case ByScraper(m) => ScraperKeepsAccount(c, s, m, p, q);
    case ByWorker(i, m) => WorkerKeepsAccount(c, s, i, m, p, q);
    case ByCleaner(m) => CleanerKeepsAccount(c, s, m, p, q);
    case ByReporter(m) =>
      assert ReporterStep(s, m).workers == s.workers && ReporterStep(s, m).Handed() == s.Handed();
      assert ToDo(ReporterStep(s, m)) == ToDo(s);
    case ByMain => MainKeepsAccount(c, s, p, q);
  }

  lemma {:induction false} AccountedOn(c: Config, s: State, steps: seq<Step>, p: EventKind, q: InfoKind)
    requires Matches(p, q) && Accounted(c, s, p, q) && Disciplined(s) && Runs(c, s, steps)
    ensures Accounted(c, End(c, s, steps), p, q)
    decreases steps
  {
    if steps == [] {
    } else {
      StepKeepsDiscipline(c, s, steps[0]);
      StepKeepsAccount(c, s, steps[0], p, q);
      AccountedOn(c, After(c, s, steps[0]), steps[1..], p, q);
    }
  }

  lemma AlwaysAccounted(c: Config, steps: seq<Step>, p: EventKind, q: InfoKind)
    requires Matches(p, q) && Runs(c, Start(c), steps)
    ensures Accounted(c, End(c, Start(c), steps), p, q)
  {
    var s := Start(c);
    StartIsDisciplined(c);
    AllUnstarted(Due(p), c.workers);
    assert ToDo(s) == Flat(c.script) && s.Handed() == [];
    AccountedOn(c, s, steps, p, q);
  }

  /** At the exit, everything that is due has been reported. */
  lemma NothingIsDue(c: Config, steps: seq<Step>, p: EventKind, q: InfoKind)
    requires Matches(p, q) && Runs(c, Start(c), steps) && End(c, Start(c), steps).main.stage.Exited?
    ensures var s, told := End(c, Start(c), steps), CountOf(ToldIn(Flat(c.script)), p);
      && Infos(s.cleaner.collected, q) <= CountOf(s.log, p) <= told + Infos(s.cleaner.collected, q)
      && (!s.interrupted ==> CountOf(s.log, p) == told + Infos(s.cleaner.collected, q))
  {
    var s := End(c, Start(c), steps);
    AlwaysDisciplined(c, steps);
    AlwaysAccounted(c, steps, p, q);
    AlwaysFollows(c, steps);
    forall w | w in s.workers
      ensures Due(p)(w) == 0
    {
      var i :| 0 <= i < |s.workers| && s.workers[i] == w;
      assert WorkerFits(s, s.workers[i]);
    }
    SumIsZero(Due(p), s.workers);
    assert s.Handed() == s.cleaner.collected;
    assert !s.interrupted ==> ToldIn(ToDo(s)) == [];
  }

  predicate IsFailedInfo(i: Info) { i.failed }

  predicate IsInfo(i: Info) { true }

  predicate NoInfo(i: Info) { false }

  lemma {:induction false} AllAreInfos(infos: seq<Info>)
    ensures Infos(infos, IsInfo) == |infos| && Infos(infos, NoInfo) == 0
    decreases infos
  {
    if infos == [] {
    } else {
      AllAreInfos(infos[..|infos| - 1]);
    }
  }

  /** The scraper tells nothing about files. */
  ghost predicate TellsNoFiles(c: Config) {
    forall e | e in ToldIn(Flat(c.script)) :: !e.FileEvent?
  }

  // ----- the report actor -----

  /** The statistics count what has been received, but for the event that is just being counted. */
  ghost predicate Tallied(s: State) {
    var r := s.reporter;
    match r.stage
    case Marking(event) => exists front :: s.log == front + [event] && Tallies(r.stats, front)
    case Receiving => Tallies(r.stats, s.log)
    case _ => Tallies(r.stats, s.log) && r.exitCode == ExitCodeOf(r.stats)
  }

  lemma HearingTallies(s: State, t: State, event: ReportEvent)
    requires Tallied(s) && s.reporter.stage.Receiving?
    requires t.reporter == Hears(s.reporter, event) && t.log == s.log + [event]
    ensures Tallied(t)
  {
  }

  lemma ReporterKeepsTally(s: State, m: ReporterMove)
    requires Tallied(s) && ReporterCan(s, m)
    ensures Tallied(ReporterStep(s, m))
  {
    if m.MarkEvent? {
      var event := s.reporter.stage.event;
      var front :| s.log == front + [event] && Tallies(s.reporter.stats, front);
      AddTallies(s.reporter.stats, front, event);
    }
  }

  lemma SendingIsHeard(c: Config, s: State, step: Step)
    requires Can(c, s, step) && SendsToReport(s, step)
    ensures var t := After(c, s, step);
      && s.reporter.stage.Receiving? && t.reporter.stage.Marking?
      && t.reporter == Hears(s.reporter, t.reporter.stage.event) && t.log == s.log + [t.reporter.stage.event]
  {
  }

  lemma StepKeepsTally(c: Config, s: State, step: Step)
    requires Tallied(s) && Can(c, s, step)
    ensures Tallied(After(c, s, step))
  {
    var t := After(c, s, step);
    if SendsToReport(s, step) {
      SendingIsHeard(c, s, step);
      HearingTallies(s, t, t.reporter.stage.event);
    } else if step.ByReporter? {
      ReporterKeepsTally(s, step.rm);
    } else {
      assert t.reporter == s.reporter && t.log == s.log;
    }
  }

  lemma {:induction false} TalliedOn(c: Config, s: State, steps: seq<Step>)
    requires Tallied(s) && Runs(c, s, steps)
    ensures Tallied(End(c, s, steps))
    decreases steps
  {
    if steps == [] {
    } else {
      StepKeepsTally(c, s, steps[0]);
      TalliedOn(c, After(c, s, steps[0]), steps[1..]);
    }
  }

  /** When main has exited, the exit code says whether a failure has been reported. */
  lemma ExitCodeIsSet(c: Config, steps: seq<Step>)
    requires Runs(c, Start(c), steps) && End(c, Start(c), steps).main.stage.Exited?
    ensures var s := End(c, Start(c), steps);
      && s.reporter.exitCode == (if Fails(s.log) then 1 else 0)
      && Tallies(s.reporter.stats, s.log)
  {
    var s := End(c, Start(c), steps);
    AlwaysDisciplined(c, steps);
    TalliedOn(c, Start(c), steps);
    ExitCodeIsFailure(s.reporter.stats, s.log);
  }

  predicate FailsFinally(infos: seq<Info>) {
    exists i :: i in infos && i.failed
  }

  predicate GivesUp(events: seq<ReportEvent>) {
    exists e :: e in events && IsFailedDirectory(e)
  }

  /**
   * When main has exited, the report actor has found as many files as have been handed
   * over, and its exit code is 1 exactly if one of them has failed for good or, in a run
   * without interrupt, a directory has been given up; otherwise it is 0.
   */
  lemma ExitCodeTells(c: Config, steps: seq<Step>)
    requires TellsNoFiles(c) && Runs(c, Start(c), steps) && End(c, Start(c), steps).main.stage.Exited?
    ensures var s := End(c, Start(c), steps);
      && s.reporter.stats.filesFound == |s.cleaner.collected|
      && s.reporter.exitCode in {0, 1}
      && (FailsFinally(s.cleaner.collected) ==> s.reporter.exitCode == 1)
      && (!s.interrupted ==>
            (s.reporter.exitCode == 1 <==> FailsFinally(s.cleaner.collected) || GivesUp(ToldIn(Flat(c.script)))))
  {
    ExitCodeIsSet(c, steps);
    FailuresAreTold(c, steps);
  }

  /** The same for the events that have been received. */
  lemma FailuresAreTold(c: Config, steps: seq<Step>)
    requires TellsNoFiles(c) && Runs(c, Start(c), steps) && End(c, Start(c), steps).main.stage.Exited?
    ensures var s := End(c, Start(c), steps);
      && CountOf(s.log, IsFile) == |s.cleaner.collected|
      && (FailsFinally(s.cleaner.collected) ==> Fails(s.log))
      && (!s.interrupted ==> (Fails(s.log) <==> FailsFinally(s.cleaner.collected) || GivesUp(ToldIn(Flat(c.script)))))
  {
    var s, told := End(c, Start(c), steps), ToldIn(Flat(c.script));
    NothingIsDue(c, steps, IsFile, IsInfo);
    NothingIsDue(c, steps, IsFailedFile, IsFailedInfo);
    NothingIsDue(c, steps, IsFailedDirectory, NoInfo);
    Conclude(s.log, told, s.cleaner.collected);
  }

  /** The same on the mere numbers. */
  lemma Conclude(log: seq<ReportEvent>, told: seq<ReportEvent>, infos: seq<Info>)
    requires forall e | e in told :: !e.FileEvent?
    requires Infos(infos, IsInfo) <= CountOf(log, IsFile) <= CountOf(told, IsFile) + Infos(infos, IsInfo)
    requires Infos(infos, IsFailedInfo) <= CountOf(log, IsFailedFile)
    requires CountOf(log, IsFailedFile) <= CountOf(told, IsFailedFile) + Infos(infos, IsFailedInfo)
    ensures CountOf(log, IsFile) == |infos|
    ensures FailsFinally(infos) ==> Fails(log)
    ensures CountOf(log, IsFailedDirectory) == CountOf(told, IsFailedDirectory) + Infos(infos, NoInfo)
      ==> (Fails(log) <==> FailsFinally(infos) || GivesUp(told))
  {
    AllAreInfos(infos);
    InfosArePositive(infos, IsFailedInfo);
    CountIsPositive(told, IsFile);
    CountIsPositive(told, IsFailedFile);
    CountIsPositive(told, IsFailedDirectory);
    CountIsPositive(log, IsFailedFile);
    CountIsPositive(log, IsFailedDirectory);
  }

  // ----- what has been cleaned up -----

  /** The scraper tells nothing about cleanups. */
  ghost predicate TellsNoCleanups(acts: seq<Scraping.Act>) {
    forall e | e in ToldIn(acts) :: !e.CleanupEvent?
  }

  /** The objects of a bulk delete that has still to be reported. */
  function Pending(s: State): nat {
    if s.cleaner.stage.Telling? then s.cleaner.stage.objects else 0
  }

  function DeletedBy(c: Config, s: State, step: Step): nat {
    if step.ByCleaner? && Deletes(c, s, step.cm) then |step.cm.deleted| else 0
  }

  /** The number of objects that are deleted in a run. */
  function DeletedIn(c: Config, s: State, steps: seq<Step>): nat
    requires Runs(c, s, steps)
    decreases steps
  {
    if steps == [] then 0 else DeletedBy(c, s, steps[0]) + DeletedIn(c, After(c, s, steps[0]), steps[1..])
  }

  lemma FirstIsTold(a: Scraping.Act, rest: seq<Scraping.Act>, log: seq<ReportEvent>)
    requires TellsNoCleanups([a] + rest)
    ensures TellsNoCleanups(rest) && CleanedUp(log + if a.Tell? then [a.event] else []) == CleanedUp(log)
  {
    assert ([a] + rest)[1..] == rest && ([a] + rest)[0] == a;
    if a.Tell? {
      assert ToldIn([a] + rest) == [a.event] + ToldIn(rest);
      assert a.event in ToldIn([a] + rest);
      AmountsSnoc(log, a.event);
    } else {
      assert ToldIn([a] + rest) == [] + ToldIn(rest) && log + [] == log;
    }
  }

  lemma ScraperTellsOthers(s: State, m: ScraperMove)
    requires ScraperCan(s, m) && TellsNoCleanups(ToDo(s))
    ensures var t := ScraperStep(s, m);
      TellsNoCleanups(ToDo(t)) && CleanedUp(t.log) == CleanedUp(s.log) && t.cleaner == s.cleaner
  {
    var sc, t := s.scraper, ScraperStep(s, m);
    if m.Perform? {
      var a := sc.acts[0];
      assert t.scraper.acts == sc.acts[1..] && t.scraper.iterations == sc.iterations;
      assert ToDo(s) == [a] + ToDo(t);
      assert t.log == s.log + if a.Tell? then [a.event] else [];
      FirstIsTold(a, ToDo(t), s.log);
    } else {
      assert ToDo(t) == ToDo(s);
    }
  }

  lemma CleanerTells(c: Config, s: State, m: CleanerMove)
    requires CleanerCan(c, s, m)
    ensures var t := CleanerStep(c, s, m);
      && t.scraper == s.scraper
      && CleanedUp(t.log) + Pending(t) == CleanedUp(s.log) + Pending(s) + DeletedBy(c, s, ByCleaner(m))
  {
    if m.TellCleanup? {
      AmountsSnoc(s.log, CleanupEvent(s.cleaner.stage.objects));
    }
  }

  lemma WorkerTellsOthers(c: Config, s: State, i: nat, m: WorkerMove)
    requires i < |s.workers| && WorkerCan(c, s, s.workers[i], m)
    ensures var t := WorkerStep(c, s, i, m);
      CleanedUp(t.log) == CleanedUp(s.log) && t.scraper == s.scraper && t.cleaner == s.cleaner
  {
    if m.Report? {
      var o := s.workers[i].phase.outcome;
      AmountsSnoc(s.log, FileEvent(o.result, o.bytes));
    } else {
      assert WorkerStep(c, s, i, m).log == s.log;
    }
  }

  lemma StepCounts(c: Config, s: State, step: Step)
    requires Can(c, s, step) && TellsNoCleanups(ToDo(s)) && Disciplined(s)
    ensures var t := After(c, s, step);
      && TellsNoCleanups(ToDo(t))
      && CleanedUp(t.log) + Pending(t) == CleanedUp(s.log) + Pending(s) + DeletedBy(c, s, step)
  {
    match step
    case Interrupt =>
    case ByScraper(m) => ScraperTellsOthers(s, m);
    case ByWorker(i, m) => WorkerTellsOthers(c, s, i, m);
    case ByCleaner(m) => CleanerTells(c, s, m);
    case ByReporter(m) =>
      assert ReporterStep(s, m).scraper == s.scraper && ReporterStep(s, m).log == s.log;
      assert ReporterStep(s, m).cleaner == s.cleaner;
    case ByMain =>
      assert MainStep(s).scraper == s.scraper && MainStep(s).log == s.log;
      assert Pending(MainStep(s)) == Pending(s);
  }

  lemma {:induction false} CountsOn(c: Config, s: State, steps: seq<Step>)
    requires Runs(c, s, steps) && TellsNoCleanups(ToDo(s)) && Disciplined(s)
    ensures var t := End(c, s, steps);
      CleanedUp(t.log) + Pending(t) == CleanedUp(s.log) + Pending(s) + DeletedIn(c, s, steps)
    decreases steps
  {
    if steps == [] {
    } else {
      StepKeepsDiscipline(c, s, steps[0]);
      StepCounts(c, s, steps[0]);
      CountsOn(c, After(c, s, steps[0]), steps[1..]);
    }
  }

  /** When main has exited, the report actor has counted every object that has been deleted. */
  lemma CleanupsAreCounted(c: Config, steps: seq<Step>)
    requires TellsNoCleanups(Flat(c.script)) && Runs(c, Start(c), steps)
    requires End(c, Start(c), steps).main.stage.Exited?
    ensures End(c, Start(c), steps).reporter.stats.filesCleanedUp == DeletedIn(c, Start(c), steps)
  {
    assert ToDo(Start(c)) == Flat(c.script);
    StartIsDisciplined(c);
    CountsOn(c, Start(c), steps);
    AlwaysDisciplined(c, steps);
    ExitCodeIsSet(c, steps);
  }
}
