/** What the target holds, during a run and after it. */
module PipelineMirror {
  import opened Base
  import opened Objects
  import opened Cleanup
  import Scraping
  import opened Pipeline
  import opened PipelineDiscipline
  import opened PipelineFlow
  import opened PipelineCleanup

  /** A file that the scraper may send. */
  predicate Known(c: Config, f: File) {
    exists acts :: acts in c.script && Scraping.Send(f) in acts
  }

  /** The targets of the jobs do not overlap, and every file belongs to the target of its job. */
  ghost predicate Separate(c: Config) {
    && (forall i: JobId, j: JobId, n: ObjectName :: c.owns(i, n) && c.owns(j, n) ==> i == j)
    && (forall f: File | Known(c, f) :: c.owns(f.job, c.name(f)))
  }

  // ----- versions -----

  /** The versions of a file with which the target side is content. */
  type Fit = (File, Version) -> bool

  /** The choice that only asks for the object to be there, and the one that asks for the version of the source. */
  function AnyVersion(): Fit {
    (f: File, v: Version) => true
  }

  function SourceVersion(c: Config): Fit {
    (f: File, v: Version) => v == c.version(f)
  }

  /** Files with the same object ask for the same. */
  ghost predicate Suits(c: Config, fit: Fit) {
    forall f: File, g: File, v: Version | Known(c, f) && Known(c, g) && c.name(f) == c.name(g) :: fit(f, v) == fit(g, v)
  }

  /** What is uploaded is fit, and so is what has been found for a file that is skipped. */
  predicate FitMove(fit: Fit, w: Worker, m: WorkerMove) {
    match m
    case Skip => w.phase.Looked? && w.phase.found.Some? ==> fit(w.phase.file, w.phase.found.value)
    case Upload(_, version) => w.phase.Looked? ==> fit(w.phase.file, version)
    case _ => true
  }

  predicate FitStep(fit: Fit, s: State, step: Step) {
    step.ByWorker? && step.i < |s.workers| ==> FitMove(fit, s.workers[step.i], step.wm)
  }

  predicate FitRun(c: Config, fit: Fit, s: State, steps: seq<Step>)
    requires Runs(c, s, steps)
    decreases steps
  {
    steps != [] ==> FitStep(fit, s, steps[0]) && FitRun(c, fit, After(c, s, steps[0]), steps[1..])
  }

  /** In every run, whatever is found is fit to be any version. */
  lemma {:induction false} AnyRunFits(c: Config, s: State, steps: seq<Step>)
    requires Runs(c, s, steps)
    ensures FitRun(c, AnyVersion(), s, steps)
    decreases steps
  {
    if steps == [] {
    } else {
      AnyRunFits(c, After(c, s, steps[0]), steps[1..]);
    }
  }

  /** The object of the file is there in a fit version; an immutable file that was there before may be any. */
  predicate Good(c: Config, fit: Fit, t: Target, f: File) {
    c.name(f) in t && (c.Fixed(f) || fit(f, t[c.name(f)]))
  }

  /** The transferor is going to write the object again, or to report that it could not. */
  predicate Owes(c: Config, fit: Fit, w: Worker, n: ObjectName) {
    || (exists g :: g in w.retry && c.name(g) == n)
    || match w.phase
       case Trying(g) => !c.Fixed(g) && c.name(g) == n
       case Looked(g, found) => !(found.Some? && fit(g, found.value)) && c.name(g) == n
       case Deleting(g) => c.name(g) == n
       case Handing(g, outcome) => outcome.result.Failed? && c.name(g) == n
       case _ => false
  }

  predicate Failed(c: Config, infos: seq<Info>, n: ObjectName) {
    exists i :: i in infos && i.failed && c.name(i.file) == n
  }

  predicate SomeoneOwes(c: Config, fit: Fit, s: State, n: ObjectName) {
    exists i :: 0 <= i < |s.workers| && Owes(c, fit, s.workers[i], n)
  }

  predicate Covered(c: Config, fit: Fit, s: State, f: File) {
    Good(c, fit, s.target, f) || SomeoneOwes(c, fit, s, c.name(f)) || Failed(c, s.Handed(), c.name(f))
  }

  /** The transferor takes the file to be on the target side. */
  predicate Claims(c: Config, fit: Fit, w: Worker, f: File) {
    match w.phase
    case Looked(g, found) => g == f && found.Some? && fit(f, found.value)
    case Handing(g, outcome) => g == f && !outcome.result.Failed?
    case _ => false
  }

  predicate SomeoneClaims(c: Config, fit: Fit, s: State, f: File) {
    exists i :: 0 <= i < |s.workers| && Claims(c, fit, s.workers[i], f)
  }

  /** Somebody relies on the file being on the target side. */
  predicate Claimed(c: Config, fit: Fit, s: State, f: File) {
    || Info(f, false) in s.Handed()
    || SomeoneClaims(c, fit, s, f)
    || (c.Fixed(f) && (Collects(s.cleaner.stage) || s.cleaner.stage.Checking?))
  }

  predicate Backed(c: Config, fit: Fit, s: State, f: File) {
    Claimed(c, fit, s, f) ==> Covered(c, fit, s, f)
  }

  // ----- where files come from -----

  /** Files in hand have been sent; those that are skipped unseen are never tried again. */
  predicate Sound(c: Config, sent: seq<File>, w: Worker) {
    && (forall g | g in w.retry :: g in sent && !c.Fixed(g))
    && (!w.phase.Idle? ==> w.phase.file in sent)
    && (w.phase.Looked? || w.phase.Deleting? ==> !c.Fixed(w.phase.file))
  }

  predicate AllSound(c: Config, s: State) {
    && (forall i | 0 <= i < |s.workers| :: Sound(c, s.history.sent, s.workers[i]))
    && (forall f | f in s.queue1 :: f in s.history.sent)
  }

  ghost predicate Scripted(c: Config, s: State) {
    && (forall f | f in s.history.sent :: Known(c, f))
    && (forall acts | acts in s.scraper.iterations :: acts in c.script)
    && (forall f | Scraping.Send(f) in s.scraper.acts :: Known(c, f))
  }

  lemma MoveIsSound(c: Config, s: State, w: Worker, m: WorkerMove)
    requires Sound(c, s.history.sent, w) && WorkerCan(c, s, w, m) && forall f | f in s.queue1 :: f in s.history.sent
    ensures Sound(c, s.history.sent, Moved(c, s, w, m))
  {
  }

  lemma WorkerKeepsSound(c: Config, s: State, i: nat, m: WorkerMove)
    requires AllSound(c, s) && i < |s.workers| && WorkerCan(c, s, s.workers[i], m)
    ensures AllSound(c, WorkerStep(c, s, i, m))
  {
    var t := WorkerStep(c, s, i, m);
    assert t.history.sent == s.history.sent;
    forall k | 0 <= k < |t.workers|
      ensures Sound(c, t.history.sent, t.workers[k])
    {
      assert Sound(c, s.history.sent, s.workers[k]);
      if k == i {
        MoveIsSound(c, s, s.workers[i], m);
      }
    }
  }

  lemma ScraperKeepsSound(c: Config, s: State, m: ScraperMove)
    requires AllSound(c, s) && ScraperCan(s, m)
    ensures AllSound(c, ScraperStep(s, m))
  {
    var t := ScraperStep(s, m);
    assert s.history.sent <= t.history.sent && t.workers == s.workers;
    forall k | 0 <= k < |t.workers|
      ensures Sound(c, t.history.sent, t.workers[k])
    {
      assert Sound(c, s.history.sent, s.workers[k]);
    }
  }

  lemma StepKeepsSound(c: Config, s: State, step: Step)
    requires AllSound(c, s) && Can(c, s, step)
    ensures AllSound(c, After(c, s, step))
  {
    match step
    case ByScraper(m) => ScraperKeepsSound(c, s, m);
    case ByWorker(i, m) => WorkerKeepsSound(c, s, i, m);
    case ByMain => MainKeepsSound(c, s);
    case _ =>
      assert After(c, s, step).workers == s.workers && After(c, s, step).history == s.history;
  }

  lemma MainKeepsSound(c: Config, s: State)
    requires AllSound(c, s) && MainCan(s)
    ensures AllSound(c, MainStep(s))
  {
    var t := MainStep(s);
    forall k | 0 <= k < |t.workers|
      ensures Sound(c, t.history.sent, t.workers[k])
    {
      assert t.workers[k] == s.workers[k] || t.workers[k] == Worker(Main, Idle, []);
    }
  }

  lemma StepKeepsScripted(c: Config, s: State, step: Step)
    requires Scripted(c, s) && Can(c, s, step)
    ensures Scripted(c, After(c, s, step))
  {
    if step.ByScraper? {
      var sc, t := s.scraper, After(c, s, step);
      if step.sm.Perform? {
        assert sc.acts[0] in sc.acts && t.scraper.acts == sc.acts[1..];
      } else if step.sm.NextIteration? {
        assert sc.iterations[0] in sc.iterations && t.scraper.iterations == sc.iterations[1..];
      }
    }
  }

  // ----- one move of a transferor -----

  /** The transferor and the file in question both have to do with what the scraper sends. */
  predicate Relates(c: Config, s: State, w: Worker, f: File) {
    Known(c, f) && Sound(c, s.history.sent, w) && forall g | g in s.history.sent :: Known(c, g)
  }

  /** A transferor only stops owing an object by writing it, by finding it, or by telling that it has failed. */
  lemma DebtsArePaid(c: Config, fit: Fit, s: State, w: Worker, m: WorkerMove, f: File)
    requires Suits(c, fit) && Relates(c, s, w, f) && WorkerCan(c, s, w, m) && FitMove(fit, w, m)
      && Owes(c, fit, w, c.name(f))
    ensures var w', t' := Moved(c, s, w, m), TargetAfter(c, s.target, w, m);
      || Owes(c, fit, w', c.name(f))
      || Good(c, fit, t', f)
      || (m.HandOver? && w.phase.outcome.result.Failed? && c.name(w.phase.file) == c.name(f))
  {
    var n, w' := c.name(f), Moved(c, s, w, m);
    if g :| g in w.retry && c.name(g) == n {
      RetryListIsKept(c, fit, s, w, m, g);
    }
  }

  lemma RetryListIsKept(c: Config, fit: Fit, s: State, w: Worker, m: WorkerMove, g: File)
    requires Sound(c, s.history.sent, w) && WorkerCan(c, s, w, m) && g in w.retry
    ensures Owes(c, fit, Moved(c, s, w, m), c.name(g))
  {
    var w' := Moved(c, s, w, m);
    if m.NextRetry? {
      var k :| 0 <= k < |w.retry| && w.retry[k] == g;
      if k > 0 {
        assert w'.retry[k - 1] == g && g in w'.retry;
      }
    } else {
      assert g in w'.retry;
    }
  }

  /** Whoever spoils a good object owes it. */
  lemma SpoilersOwe(c: Config, fit: Fit, s: State, w: Worker, m: WorkerMove, f: File)
    requires Suits(c, fit) && Relates(c, s, w, f) && WorkerCan(c, s, w, m) && FitMove(fit, w, m)
    requires Good(c, fit, s.target, f)
    ensures Good(c, fit, TargetAfter(c, s.target, w, m), f) || Owes(c, fit, Moved(c, s, w, m), c.name(f))
  {
    var w' := Moved(c, s, w, m);
    if m.Delete? && w.stage.Main? {
      assert w'.retry[|w.retry|] == w.phase.file && w.phase.file in w'.retry;
    }
  }

  lemma WorkerKeepsCovered(c: Config, fit: Fit, s: State, i: nat, m: WorkerMove, f: File)
    requires Suits(c, fit) && i < |s.workers| && Relates(c, s, s.workers[i], f) && WorkerCan(c, s, s.workers[i], m)
    requires FitMove(fit, s.workers[i], m) && Covered(c, fit, s, f)
    ensures Covered(c, fit, WorkerStep(c, s, i, m), f)
  {
    var n, w, t := c.name(f), s.workers[i], WorkerStep(c, s, i, m);
    assert t.target == TargetAfter(c, s.target, w, m) && t.workers == s.workers[i := Moved(c, s, w, m)];
    HandedGrows(c, s, i, m);
    if Good(c, fit, s.target, f) {
      SpoilersOwe(c, fit, s, w, m, f);
      assert t.workers[i] == Moved(c, s, w, m);
    } else if Failed(c, s.Handed(), n) {
    } else {
      var k :| 0 <= k < |s.workers| && Owes(c, fit, s.workers[k], n);
      if k == i {
        DebtsArePaid(c, fit, s, w, m, f);
        assert t.workers[i] == Moved(c, s, w, m);
      } else {
        assert t.workers[k] == s.workers[k];
      }
    }
  }

  lemma HandedGrows(c: Config, s: State, i: nat, m: WorkerMove)
    requires i < |s.workers| && WorkerCan(c, s, s.workers[i], m)
    ensures var w, t := s.workers[i], WorkerStep(c, s, i, m);
      && (forall info :: info in s.Handed() ==> info in t.Handed())
      && (m.HandOver? ==> Info(w.phase.file, w.phase.outcome.result.Failed?) in t.Handed())
      && (forall info :: info in t.Handed() ==>
            info in s.Handed() || (m.HandOver? && info == Info(w.phase.file, w.phase.outcome.result.Failed?)))
  {
    var t := WorkerStep(c, s, i, m);
    if m.HandOver? {
      var w := s.workers[i];
      assert t.Handed() == s.Handed() + [Info(w.phase.file, w.phase.outcome.result.Failed?)];
    } else {
      assert t.Handed() == s.Handed();
    }
  }

  /** A transferor comes to rely on a file only for a reason. */
  lemma ClaimsAreFounded(c: Config, fit: Fit, s: State, w: Worker, m: WorkerMove, f: File)
    requires Suits(c, fit) && Known(c, f) && WorkerCan(c, s, w, m) && FitMove(fit, w, m)
      && Claims(c, fit, Moved(c, s, w, m), f)
    ensures Claims(c, fit, w, f) || Good(c, fit, TargetAfter(c, s.target, w, m), f) || c.Fixed(f)
  {
  }

  ghost predicate Mirrors(c: Config, fit: Fit, s: State, f: File) {
    && Separate(c) && Suits(c, fit) && Known(c, f)
    && Disciplined(s) && AllSound(c, s) && Scripted(c, s)
    && Backed(c, fit, s, f)
  }

  lemma WorkerKeepsBacked(c: Config, fit: Fit, s: State, i: nat, m: WorkerMove, f: File)
    requires Mirrors(c, fit, s, f)
    requires i < |s.workers| && WorkerCan(c, s, s.workers[i], m) && FitMove(fit, s.workers[i], m)
    ensures Backed(c, fit, WorkerStep(c, s, i, m), f)
  {
    var w, t := s.workers[i], WorkerStep(c, s, i, m);
    assert Collects(s.cleaner.stage) by {
      assert WorkerFits(s, w);
    }
    assert Sound(c, s.history.sent, w) && Relates(c, s, w, f);
    if Covered(c, fit, s, f) {
      WorkerKeepsCovered(c, fit, s, i, m, f);
    } else if Claimed(c, fit, t, f) {
      HandedGrows(c, s, i, m);
      if SomeoneClaims(c, fit, t, f) {
        ClaimantsAreFew(c, fit, s, i, m, f);
        ClaimsAreFounded(c, fit, s, w, m, f);
      }
    }
  }

  /** Whoever comes to rely on a file is the transferor that has moved. */
  lemma ClaimantsAreFew(c: Config, fit: Fit, s: State, i: nat, m: WorkerMove, f: File)
    requires i < |s.workers| && WorkerCan(c, s, s.workers[i], m) && SomeoneClaims(c, fit, WorkerStep(c, s, i, m), f)
    ensures SomeoneClaims(c, fit, s, f) || Claims(c, fit, Moved(c, s, s.workers[i], m), f)
  {
    var t := WorkerStep(c, s, i, m);
    var k :| 0 <= k < |t.workers| && Claims(c, fit, t.workers[k], f);
    if k != i {
      assert t.workers[k] == s.workers[k];
    }
  }

  // ----- the other actors -----

  lemma SameMirror(c: Config, fit: Fit, s: State, t: State, f: File)
    requires Backed(c, fit, s, f) && t.target == s.target && t.workers == s.workers && t.Handed() == s.Handed()
    requires Collects(t.cleaner.stage) || t.cleaner.stage.Checking?
      ==> Collects(s.cleaner.stage) || s.cleaner.stage.Checking?
    ensures Backed(c, fit, t, f)
  {
  }

  /** A cleanup does not touch what has been handed over. */
  lemma CleanerKeepsBacked(c: Config, fit: Fit, s: State, m: CleanerMove, f: File)
    requires Mirrors(c, fit, s, f) && CleanerCan(c, s, m)
    ensures Backed(c, fit, CleanerStep(c, s, m), f)
  {
    var t := CleanerStep(c, s, m);
    assert t.Handed() == s.Handed() && t.workers == s.workers;
    if Deletes(c, s, m) {
      assert s.Handed() == s.cleaner.collected;
      if Claimed(c, fit, t, f) {
        NobodyClaimsInTheEnd(c, fit, s, f);
        assert Info(f, false) in s.cleaner.collected;
        DeletionsSpare(c, s, m.job, f);
      }
    } else {
      SameMirror(c, fit, s, t, f);
    }
  }

  lemma DeletionsSpare(c: Config, s: State, job: JobId, f: File)
    requires Separate(c) && Known(c, f) && Info(f, false) in s.cleaner.collected
    ensures c.name(f) !in Deletions(c, s, job)
  {
    assert c.owns(f.job, c.name(f));
    if f.job == job {
      assert Info(f, false).file.job == job;
      assert c.name(f) in TransferredIn(c.name, s.cleaner.collected, job);
    }
  }

  lemma NobodyClaimsInTheEnd(c: Config, fit: Fit, s: State, f: File)
    requires Disciplined(s) && AllGone(s)
    ensures !SomeoneClaims(c, fit, s, f) && forall n :: !SomeoneOwes(c, fit, s, n)
  {
    forall i | 0 <= i < |s.workers|
      ensures s.workers[i].phase.Idle? && s.workers[i].retry == []
    {
      assert WorkerFits(s, s.workers[i]);
    }
  }

  lemma MainKeepsBacked(c: Config, fit: Fit, s: State, f: File)
    requires Disciplined(s) && Backed(c, fit, s, f) && MainCan(s)
    ensures Backed(c, fit, MainStep(s), f)
  {
    var t := MainStep(s);
    assert t.Handed() == s.Handed() && t.target == s.target;
    if s.main.stage.Starting? && s.main.stage.started < |s.workers| {
      var n := s.main.stage.started;
      assert WorkerFits(s, s.workers[n]);
      assert forall k | 0 <= k < |s.workers| :: k != n ==> t.workers[k] == s.workers[k];
    } else {
      SameMirror(c, fit, s, t, f);
    }
  }

  lemma StepKeepsBacked(c: Config, fit: Fit, s: State, step: Step, f: File)
    requires Mirrors(c, fit, s, f) && Can(c, s, step) && FitStep(fit, s, step)
    ensures Backed(c, fit, After(c, s, step), f)
  {
    match step
    case Interrupt => SameMirror(c, fit, s, After(c, s, step), f);
    case ByScraper(m) => SameMirror(c, fit, s, After(c, s, step), f);
    case ByWorker(i, m) => WorkerKeepsBacked(c, fit, s, i, m, f);
    case ByCleaner(m) => CleanerKeepsBacked(c, fit, s, m, f);
    case ByReporter(m) => SameMirror(c, fit, s, After(c, s, step), f);
    case ByMain => MainKeepsBacked(c, fit, s, f);
  }

  /**
   * In every state of every run, whatever is relied upon is on the target side, or somebody
   * owes it, or it has failed.
   */
  lemma AlwaysBacked(c: Config, fit: Fit, steps: seq<Step>, f: File)
    requires Separate(c) && Suits(c, fit) && Known(c, f) && Runs(c, Start(c), steps) && FitRun(c, fit, Start(c), steps)
    ensures Mirrors(c, fit, End(c, Start(c), steps), f)
  {
    StartIsDisciplined(c);
    BackedOn(c, fit, Start(c), steps, f);
  }

  lemma {:induction false} BackedOn(c: Config, fit: Fit, s: State, steps: seq<Step>, f: File)
    requires Mirrors(c, fit, s, f) && Runs(c, s, steps) && FitRun(c, fit, s, steps)
    ensures Mirrors(c, fit, End(c, s, steps), f)
    decreases steps
  {
    if steps == [] {
    } else {
      StepKeepsDiscipline(c, s, steps[0]);
      StepKeepsSound(c, s, steps[0]);
      StepKeepsScripted(c, s, steps[0]);
      StepKeepsBacked(c, fit, s, steps[0], f);
      BackedOn(c, fit, After(c, s, steps[0]), steps[1..], f);
    }
  }

  // ----- objects come from somewhere -----

  predicate Sent(c: Config, s: State, n: ObjectName) {
    exists f :: f in s.history.sent && c.name(f) == n
  }

  predicate Originates(c: Config, s: State, n: ObjectName) {
    n in s.target ==> n in c.before || Sent(c, s, n)
  }

  lemma StepKeepsOrigins(c: Config, s: State, step: Step, n: ObjectName)
    requires AllSound(c, s) && Originates(c, s, n) && Can(c, s, step)
    ensures Originates(c, After(c, s, step), n)
  {
    var t := After(c, s, step);
    assert s.history.sent <= t.history.sent;
    if step.ByWorker? {
      assert Sound(c, s.history.sent, s.workers[step.i]);
    }
  }

  /** Objects on the target side have been there before or belong to a file that has been sent. */
  lemma AlwaysOriginates(c: Config, steps: seq<Step>, n: ObjectName)
    requires Runs(c, Start(c), steps)
    ensures Originates(c, End(c, Start(c), steps), n)
  {
    OriginatesOn(c, Start(c), steps, n);
  }

  lemma {:induction false} OriginatesOn(c: Config, s: State, steps: seq<Step>, n: ObjectName)
    requires AllSound(c, s) && Originates(c, s, n) && Runs(c, s, steps)
    ensures Originates(c, End(c, s, steps), n)
    decreases steps
  {
    if steps == [] {
    } else {
      StepKeepsSound(c, s, steps[0]);
      StepKeepsOrigins(c, s, steps[0], n);
      OriginatesOn(c, After(c, s, steps[0]), steps[1..], n);
    }
  }

  // ----- the mirror -----

  /** What the target has for a job. */
  function ObjectsOf(c: Config, s: State, job: JobId): set<ObjectName> {
    set n | n in s.target && c.owns(job, n)
  }

  /** No file of the job has failed. */
  predicate NoneFailed(s: State, job: JobId) {
    forall i | i in s.cleaner.collected :: i.file.job == job ==> !i.failed
  }

  /**
   * After a run that was not interrupted, every file of a job of which none has failed is
   * on the target side, in a version that is fit if only fit ones have been skipped.
   */
  lemma NothingIsMissing(c: Config, fit: Fit, steps: seq<Step>, f: File)
    requires c.workers >= 1 && Separate(c) && Runs(c, Start(c), steps)
    requires Suits(c, fit) && FitRun(c, fit, Start(c), steps)
    requires var s := End(c, Start(c), steps);
      s.main.stage.Exited? && !s.interrupted && f in s.history.sent && NoneFailed(s, f.job)
    ensures Good(c, fit, End(c, Start(c), steps).target, f)
  {
    var s := End(c, Start(c), steps);
    AlwaysDisciplined(c, steps);
    AllHanded(c, steps);
    SentIsKnown(c, steps, f);
    AlwaysBacked(c, fit, steps, f);
    assert s.Handed() == s.cleaner.collected;
    var k :| 0 <= k < |s.cleaner.collected| && FilesOf(s.cleaner.collected)[k] == f;
    assert s.cleaner.collected[k] == Info(f, false);
    NobodyClaimsInTheEnd(c, fit, s, f);
    OthersFailElsewhere(c, steps, f);
  }

  /** A file that has failed belongs to another object, as targets do not overlap. */
  lemma OthersFailElsewhere(c: Config, steps: seq<Step>, f: File)
    requires c.workers >= 1 && Separate(c) && Known(c, f) && Runs(c, Start(c), steps)
    requires var s := End(c, Start(c), steps);
      s.main.stage.Exited? && !s.interrupted && NoneFailed(s, f.job)
    ensures !Failed(c, End(c, Start(c), steps).cleaner.collected, c.name(f))
  {
    var s := End(c, Start(c), steps);
    AlwaysDisciplined(c, steps);
    AllHanded(c, steps);
    assert s.Handed() == s.cleaner.collected;
    forall i | i in s.cleaner.collected && i.failed
      ensures c.name(i.file) != c.name(f)
    {
      var j :| 0 <= j < |s.cleaner.collected| && s.cleaner.collected[j] == i;
      assert FilesOf(s.cleaner.collected)[j] == i.file;
      SentIsKnown(c, steps, i.file);
      assert c.owns(i.file.job, c.name(i.file)) && c.owns(f.job, c.name(f));
    }
  }

  lemma SentIsKnown(c: Config, steps: seq<Step>, f: File)
    requires Runs(c, Start(c), steps) && f in End(c, Start(c), steps).history.sent
    ensures Known(c, f)
  {
    ScriptedOn(c, Start(c), steps);
  }

  lemma {:induction false} ScriptedOn(c: Config, s: State, steps: seq<Step>)
    requires Scripted(c, s) && Runs(c, s, steps)
    ensures Scripted(c, End(c, s, steps))
    decreases steps
  {
    if steps == [] {
    } else {
      StepKeepsScripted(c, s, steps[0]);
      ScriptedOn(c, After(c, s, steps[0]), steps[1..]);
    }
  }

  /** A run without interrupt after which a job is to have an exact mirror. */
  predicate Mirrorable(c: Config, s: State, job: JobId) {
    && s.main.stage.Exited? && !s.interrupted
    && c.strategy(job).DeleteUnknownFiles? && (exists f :: f in s.history.sent && f.job == job)
    && NoneFailed(s, job) && job !in s.incomplete && job !in s.cleaner.troubled
  }

  /**
   * The mirror is exact: after a run that was not interrupted, if a job deletes unknown
   * files, has a file, no failed file, no directory that was given up, and its bulk delete
   * has succeeded, then the objects of the job are the ones of its files. However files
   * are compared, and whatever the source says about them, does not matter.
   */
  lemma MirrorIsExact(c: Config, steps: seq<Step>, job: JobId)
    requires c.workers >= 1 && Separate(c) && Runs(c, Start(c), steps)
    requires Mirrorable(c, End(c, Start(c), steps), job)
    ensures ObjectsOf(c, End(c, Start(c), steps), job) == Mirrored(c, End(c, Start(c), steps), job)
  {
    var s := End(c, Start(c), steps);
    AnyRunFits(c, Start(c), steps);
    forall f | f in s.history.sent && f.job == job
      ensures c.name(f) in s.target && c.owns(job, c.name(f))
    {
      NothingIsMissing(c, AnyVersion(), steps, f);
      SentIsKnown(c, steps, f);
    }
    IsCleanedUp(c, steps, job);
    forall n | n in ObjectsOf(c, s, job)
      ensures n in Mirrored(c, s, job)
    {
      AlwaysOriginates(c, steps, n);
      if n in c.before {
        assert n in c.Existing(job) && n !in Deletions(c, s, job);
      } else {
        var f :| f in s.history.sent && c.name(f) == n;
        SentIsKnown(c, steps, f);
        assert c.owns(f.job, n);
      }
    }
  }

  /**
   * The mirror is up to date: if moreover files were only uploaded in the version of the
   * source, and only skipped if the version found was that one, and if no object is found
   * in two versions, then every file of the job is on the target side in the version of the
   * source, except for immutable ones that were there before.
   */
  lemma MirrorIsCurrent(c: Config, steps: seq<Step>, job: JobId)
    requires c.workers >= 1 && Separate(c) && Runs(c, Start(c), steps)
    requires Suits(c, SourceVersion(c)) && FitRun(c, SourceVersion(c), Start(c), steps)
    requires Mirrorable(c, End(c, Start(c), steps), job)
    ensures var s := End(c, Start(c), steps);
      forall f | f in s.history.sent && f.job == job ::
        c.name(f) in s.target && (c.Fixed(f) || s.target[c.name(f)] == c.version(f))
  {
    var s := End(c, Start(c), steps);
    forall f | f in s.history.sent && f.job == job
      ensures c.name(f) in s.target && (c.Fixed(f) || s.target[c.name(f)] == c.version(f))
    {
      NothingIsMissing(c, SourceVersion(c), steps, f);
    }
  }

  lemma IsCleanedUp(c: Config, steps: seq<Step>, job: JobId)
    requires c.workers >= 1 && Runs(c, Start(c), steps)
    requires Mirrorable(c, End(c, Start(c), steps), job)
    ensures var s := End(c, Start(c), steps);
      && job in s.cleaner.cleaned
      && Deletions(c, s, job) == c.Existing(job) - Mirrored(c, s, job)
      && forall n | n in Deletions(c, s, job) :: n !in s.target
  {
    var s := End(c, Start(c), steps);
    AlwaysDisciplined(c, steps);
    AlwaysCleansWell(c, steps);
    AllHanded(c, steps);
    assert s.Handed() == s.cleaner.collected;
    MirroredAreTransferred(c, s, job);
    var f :| f in s.history.sent && f.job == job;
    var k :| 0 <= k < |s.cleaner.collected| && FilesOf(s.cleaner.collected)[k] == f;
    assert s.cleaner.collected[k] in s.cleaner.collected && s.cleaner.collected[k].file == f;
    assert Eligible(c, s, job);
  }
}
