/** Where the files are: none is lost, none is handed over or reported twice, none is tried more than twice. */
module PipelineFlow {
  import opened Base
  import opened Objects
  import Scraping
  import opened Pipeline
  import opened PipelineDiscipline

  // ----- how often a file occurs -----

  function One(x: File, f: File): nat {
    if x == f then 1 else 0
  }

  function N(s: seq<File>, f: File): nat {
    multiset(s)[f]
  }

  lemma Snoc(s: seq<File>, x: File, f: File)
    ensures N(s + [x], f) == N(s, f) + One(x, f)
  {
  }

  lemma Uncons(s: seq<File>, f: File)
    requires s != []
    ensures N(s, f) == One(s[0], f) + N(s[1..], f)
  {
    assert s == [s[0]] + s[1..];
  }

  /** In a transferor: not yet handed over, that is, in its hands or on its retry list. */
  function Held(w: Worker, f: File): nat {
    N(w.retry, f) + if w.phase.Idle? || w.phase.Reporting? then 0 else One(w.phase.file, f)
  }

  /** Handed over, but not yet reported. */
  function Unreported(w: Worker, f: File): nat {
    if w.phase.Reporting? then One(w.phase.file, f) else 0
  }

  /** The attempts that it may still begin. */
  function Owed(w: Worker, f: File): nat {
    N(w.retry, f)
      + if w.stage.Main? && (w.phase.Trying? || w.phase.Looked? || w.phase.Deleting?) then One(w.phase.file, f) else 0
  }

  function HeldOf(f: File): Count {
    (w: Worker) => Held(w, f)
  }

  function UnreportedOf(f: File): Count {
    (w: Worker) => Unreported(w, f)
  }

  function OwedOf(f: File): Count {
    (w: Worker) => Owed(w, f)
  }

  function FilesOf(infos: seq<Info>): seq<File> {
    seq(|infos|, i requires 0 <= i < |infos| => infos[i].file)
  }

  // ----- the invariant -----

  /** A file that has been sent is in exactly one place. */
  predicate Conserved(s: State, f: File) {
    N(s.history.sent, f)
    == N(s.queue1, f) + Sum(HeldOf(f), s.workers) + N(FilesOf(s.Handed()), f) + N(s.history.drained, f)
  }

  /** A file that has been handed over is reported once. */
  predicate ReportsFollow(s: State, f: File) {
    N(FilesOf(s.Handed()), f) == Sum(UnreportedOf(f), s.workers) + N(s.history.reported, f)
  }

  /** Attempts made and attempts possible are at most two for each time the file has been sent. */
  predicate TriesLimited(s: State, f: File) {
    N(s.history.tried, f) + Sum(OwedOf(f), s.workers) + 2 * N(s.queue1, f) <= 2 * N(s.history.sent, f)
  }

  predicate Flows(s: State, f: File) {
    Conserved(s, f) && ReportsFollow(s, f) && TriesLimited(s, f)
  }

  // ----- one move of a transferor -----

  function In(s: State, m: WorkerMove, f: File): nat {
    if m.Take? && s.queue1 != [] then One(s.queue1[0], f) else 0
  }

  function Out(w: Worker, m: WorkerMove, f: File): nat {
    if m.HandOver? && w.phase.Handing? then One(w.phase.file, f) else 0
  }

  function Told(w: Worker, m: WorkerMove, f: File): nat {
    if m.Report? && w.phase.Reporting? then One(w.phase.file, f) else 0
  }

  /** The attempt that the move begins. */
  function Try(s: State, w: Worker, w': Worker, m: WorkerMove, f: File): nat {
    if m.NextRetry? && w'.phase.Trying? then One(w'.phase.file, f) else In(s, m, f)
  }

  /** The move takes over, hands over and reports what it should. */
  predicate Transfers(s: State, w: Worker, w': Worker, m: WorkerMove, f: File) {
    && Held(w', f) + Out(w, m, f) == Held(w, f) + In(s, m, f)
    && Unreported(w', f) + Told(w, m, f) == Unreported(w, f) + Out(w, m, f)
    && Try(s, w, w', m, f) + Owed(w', f) <= Owed(w, f) + 2 * In(s, m, f)
  }

  lemma RetryTransfers(c: Config, s: State, w: Worker, f: File)
    requires WorkerCan(c, s, w, NextRetry)
    ensures Transfers(s, w, Moved(c, s, w, NextRetry), NextRetry, f)
  {
    Uncons(w.retry, f);
  }

  lemma FailureTransfers(c: Config, s: State, w: Worker, m: WorkerMove, f: File)
    requires WorkerCan(c, s, w, m) && (m.Fail? || m.Delete?)
    ensures Transfers(s, w, Moved(c, s, w, m), m, f)
  {
    Snoc(w.retry, w.phase.file, f);
  }

  lemma MoveTransfers(c: Config, s: State, w: Worker, m: WorkerMove, f: File)
    requires WorkerFits(s, w) && WorkerCan(c, s, w, m)
    ensures Transfers(s, w, Moved(c, s, w, m), m, f)
  {
    if m.NextRetry? {
      RetryTransfers(c, s, w, f);
    } else if m.Fail? || m.Delete? {
      FailureTransfers(c, s, w, m, f);
    } else {
      assert Moved(c, s, w, m).retry == w.retry;
    }
  }

  /** What a move does to the sums. */
  lemma MoveShifts(c: Config, s: State, i: nat, m: WorkerMove, f: File)
    requires i < |s.workers| && WorkerFits(s, s.workers[i]) && WorkerCan(c, s, s.workers[i], m)
    ensures var w, w' := s.workers[i], Moved(c, s, s.workers[i], m);
      var ws := s.workers[i := w'];
      && Sum(HeldOf(f), ws) + Out(w, m, f) == Sum(HeldOf(f), s.workers) + In(s, m, f)
      && Sum(UnreportedOf(f), ws) + Told(w, m, f) == Sum(UnreportedOf(f), s.workers) + Out(w, m, f)
      && Try(s, w, w', m, f) + Sum(OwedOf(f), ws) <= Sum(OwedOf(f), s.workers) + 2 * In(s, m, f)
  {
    var w' := Moved(c, s, s.workers[i], m);
    MoveTransfers(c, s, s.workers[i], m, f);
    SumUpdate(HeldOf(f), s.workers, i, w');
    SumUpdate(UnreportedOf(f), s.workers, i, w');
    SumUpdate(OwedOf(f), s.workers, i, w');
  }

  /** What it does to the first queue. */
  lemma MoveTakes(c: Config, s: State, i: nat, m: WorkerMove, f: File)
    requires i < |s.workers| && WorkerCan(c, s, s.workers[i], m)
    ensures var t := WorkerStep(c, s, i, m);
      && N(t.queue1, f) + In(s, m, f) + N(t.history.drained, f) == N(s.queue1, f) + N(s.history.drained, f)
      && N(t.queue1, f) + In(s, m, f) <= N(s.queue1, f)
  {
    if m.Take? || m.Drain? {
      Uncons(s.queue1, f);
      Snoc(s.history.drained, s.queue1[0], f);
    }
  }

  /** What it does to the second queue. */
  lemma MoveHandsOver(c: Config, s: State, i: nat, m: WorkerMove, f: File)
    requires i < |s.workers| && WorkerCan(c, s, s.workers[i], m)
    ensures N(FilesOf(WorkerStep(c, s, i, m).Handed()), f) == N(FilesOf(s.Handed()), f) + Out(s.workers[i], m, f)
  {
    var w, t := s.workers[i], WorkerStep(c, s, i, m);
    if m.HandOver? {
      Snoc(FilesOf(s.Handed()), w.phase.file, f);
      assert FilesOf(t.Handed()) == FilesOf(s.Handed()) + [w.phase.file];
    } else {
      assert t.Handed() == s.Handed();
    }
  }

  /** What it does to the history. */
  lemma MoveTells(c: Config, s: State, i: nat, m: WorkerMove, f: File)
    requires i < |s.workers| && WorkerCan(c, s, s.workers[i], m)
    ensures var w, w', t := s.workers[i], Moved(c, s, s.workers[i], m), WorkerStep(c, s, i, m);
      && N(t.history.reported, f) == N(s.history.reported, f) + Told(w, m, f)
      && N(t.history.tried, f) == N(s.history.tried, f) + Try(s, w, w', m, f)
  {
    var w, w' := s.workers[i], Moved(c, s, s.workers[i], m);
    if m.Report? {
      Snoc(s.history.reported, w.phase.file, f);
    } else if m.Take? {
      Snoc(s.history.tried, s.queue1[0], f);
    } else if m.NextRetry? && w'.phase.Trying? {
      Snoc(s.history.tried, w'.phase.file, f);
    }
  }

  lemma WorkerKeepsFlow(c: Config, s: State, i: nat, m: WorkerMove, f: File)
    requires Flows(s, f) && i < |s.workers| && WorkerFits(s, s.workers[i]) && WorkerCan(c, s, s.workers[i], m)
    ensures Flows(WorkerStep(c, s, i, m), f)
  {
    MoveShifts(c, s, i, m, f);
    MoveTakes(c, s, i, m, f);
    MoveHandsOver(c, s, i, m, f);
    MoveTells(c, s, i, m, f);
  }

  // ----- the other actors -----

  lemma ScraperKeepsFlow(s: State, m: ScraperMove, f: File)
    requires Flows(s, f) && ScraperCan(s, m)
    ensures Flows(ScraperStep(s, m), f)
  {
    var t := ScraperStep(s, m);
    assert t.workers == s.workers && t.Handed() == s.Handed();
    if m.Perform? && s.scraper.acts[0].Send? {
      Snoc(s.queue1, s.scraper.acts[0].file, f);
      Snoc(s.history.sent, s.scraper.acts[0].file, f);
    }
  }

  lemma CleanerKeepsFlow(c: Config, s: State, m: CleanerMove, f: File)
    requires Flows(s, f) && CleanerCan(c, s, m)
    ensures Flows(CleanerStep(c, s, m), f)
  {
    var t := CleanerStep(c, s, m);
    assert t.workers == s.workers && t.queue1 == s.queue1 && t.history == s.history;
    assert t.Handed() == s.Handed();
  }

  lemma MainKeepsFlow(s: State, f: File)
    requires Flows(s, f) && Disciplined(s) && MainCan(s)
    ensures Flows(MainStep(s), f)
  {
    var t := MainStep(s);
    assert t.Handed() == s.Handed();
    if s.main.stage.Starting? && s.main.stage.started < |s.workers| {
      var n := s.main.stage.started;
      assert WorkerFits(s, s.workers[n]);
      SumUpdate(HeldOf(f), s.workers, n, t.workers[n]);
      SumUpdate(UnreportedOf(f), s.workers, n, t.workers[n]);
      SumUpdate(OwedOf(f), s.workers, n, t.workers[n]);
    }
  }

  lemma StepKeepsFlow(c: Config, s: State, step: Step, f: File)
    requires Disciplined(s) && Flows(s, f) && Can(c, s, step)
    ensures Flows(After(c, s, step), f)
  {
    match step
    case Interrupt =>
    case ByScraper(m) => ScraperKeepsFlow(s, m, f);
    case ByWorker(i, m) =>
      assert WorkerFits(s, s.workers[i]);
      WorkerKeepsFlow(c, s, i, m, f);
    case ByCleaner(m) => CleanerKeepsFlow(c, s, m, f);
    case ByReporter(m) =>
      assert ReporterStep(s, m).workers == s.workers && ReporterStep(s, m).Handed() == s.Handed();
    case ByMain => MainKeepsFlow(s, f);
  }

  /** In every state of every run, no file has been lost or doubled, and none has been tried too often. */
  lemma AlwaysFlows(c: Config, steps: seq<Step>, f: File)
    requires Runs(c, Start(c), steps)
    ensures Flows(End(c, Start(c), steps), f)
  {
    var s := Start(c);
    StartIsDisciplined(c);
    AllUnstarted(HeldOf(f), c.workers);
    AllUnstarted(UnreportedOf(f), c.workers);
    AllUnstarted(OwedOf(f), c.workers);
    assert s.Handed() == [];
    FlowsOn(c, s, steps, f);
  }

  lemma {:induction false} FlowsOn(c: Config, s: State, steps: seq<Step>, f: File)
    requires Disciplined(s) && Flows(s, f) && Runs(c, s, steps)
    ensures Flows(End(c, s, steps), f)
    decreases steps
  {
    if steps == [] {
    } else {
      StepKeepsDiscipline(c, s, steps[0]);
      StepKeepsFlow(c, s, steps[0], f);
      FlowsOn(c, After(c, s, steps[0]), steps[1..], f);
    }
  }

  // ----- at the end -----

  lemma NothingHeldAtTheEnd(s: State, f: File)
    requires Disciplined(s) && AllGone(s)
    ensures Sum(HeldOf(f), s.workers) == Sum(UnreportedOf(f), s.workers) == 0
  {
    forall w | w in s.workers
      ensures HeldOf(f)(w) == 0 && UnreportedOf(f)(w) == 0
    {
      var i :| 0 <= i < |s.workers| && s.workers[i] == w;
      assert WorkerFits(s, s.workers[i]);
    }
    SumIsZero(HeldOf(f), s.workers);
    SumIsZero(UnreportedOf(f), s.workers);
  }

  /** When all transferors are gone, nothing is left in the first queue. */
  lemma DryAtTheEnd(c: Config, steps: seq<Step>)
    requires c.workers >= 1 && Runs(c, Start(c), steps) && AllGone(End(c, Start(c), steps))
    ensures var s := End(c, Start(c), steps); Disciplined(s) && Dry(s)
  {
    var s := End(c, Start(c), steps);
    AlwaysDisciplined(c, steps);
    WorkersStay(c, steps);
    assert WorkerFits(s, s.workers[0]);
  }

  /**
   * When the transferors are gone, every file that has been sent has been handed over
   * and reported exactly once or, only after an interrupt, thrown away; and it has been
   * tried at most twice.
   */
  lemma EachFileOnce(c: Config, steps: seq<Step>)
    requires c.workers >= 1 && Runs(c, Start(c), steps) && AllGone(End(c, Start(c), steps))
    ensures var s := End(c, Start(c), steps);
      && multiset(s.history.sent) == multiset(FilesOf(s.Handed())) + multiset(s.history.drained)
      && multiset(s.history.reported) == multiset(FilesOf(s.Handed()))
      && (!s.interrupted ==> s.history.drained == [])
      && (forall f: File :: N(s.history.tried, f) <= 2 * N(s.history.sent, f))
  {
    var s := End(c, Start(c), steps);
    DryAtTheEnd(c, steps);
    forall f: File
      ensures N(s.history.sent, f) == N(FilesOf(s.Handed()), f) + N(s.history.drained, f)
      ensures N(s.history.reported, f) == N(FilesOf(s.Handed()), f)
      ensures N(s.history.tried, f) <= 2 * N(s.history.sent, f)
    {
      AlwaysFlows(c, steps, f);
      NothingHeldAtTheEnd(s, f);
    }
    CountedEqual(s.history.sent, FilesOf(s.Handed()), s.history.drained);
    CountedEqual(s.history.reported, FilesOf(s.Handed()), []);
  }

  lemma CountedEqual(a: seq<File>, b: seq<File>, c: seq<File>)
    requires forall f: File :: N(a, f) == N(b, f) + N(c, f)
    ensures multiset(a) == multiset(b) + multiset(c)
  {
    forall f: File
      ensures multiset(a)[f] == (multiset(b) + multiset(c))[f]
    {
      assert N(a, f) == N(b, f) + N(c, f);
    }
  }
}
