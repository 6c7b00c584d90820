/**
 * What becomes of each directory, in terms of what its source answers: how often it is
 * tried, what is reported about it, and when its job counts as incomplete.
 */
module ScrapeOutcomes {
  import opened Base
  import opened Objects
  import opened Scraping
  import opened ScrapeTree
  import opened ScrapeOrder
  import opened ScrapeJob
  import S = Scraper

  // ----- the answers of the source -----

  /** The error of attempt `k` to list a directory; for the root, `ListAllFiles` decides if it is supported. */
  function ErrorOf(w: World, job: JobId, path: string, k: nat): Option<ListError> {
    if path == "/" && w.source(job).listAllFiles(k).AllFiles? then w.source(job).listAllFiles(k).error
    else w.source(job).listEntries(path, k).error
  }

  /** The attempt fails, but not for its signature. */
  predicate Fails(w: World, job: JobId, path: string, k: nat) {
    ErrorOf(w, job, path, k).Some? && !ErrorOf(w, job, path, k).value.gpg
  }

  /** How often a directory is tried: until an attempt does not fail in this way, but three times at most. */
  function AttemptsFor(w: World, job: JobId, path: string): nat {
    if !Fails(w, job, path, 0) then 1 else if !Fails(w, job, path, 1) then 2 else 3
  }

  /** The attempts for a directory that is found `n` times. */
  function AttemptsInAll(w: World, job: JobId, path: string, n: nat): nat {
    if !Fails(w, job, path, 0) then n else if !Fails(w, job, path, 1) then 2 * n else 3 * n
  }

  /** What is reported: the directory is scanned, or given up, or its job is skipped. */
  function Outcome(w: World, job: JobId, path: string): ReportEvent {
    var last := ErrorOf(w, job, path, AttemptsFor(w, job, path) - 1);
    if last.None? then DirectoryEvent(false) else if last.value.gpg then JobEvent(true) else DirectoryEvent(true)
  }

  /** All three attempts fail. */
  predicate AlwaysFails(w: World, job: JobId, path: string) {
    Fails(w, job, path, 0) && Fails(w, job, path, 1) && Fails(w, job, path, 2)
  }

  /** The entries that are handled: an attempt of `ListEntries` that fails yields nothing, one of `ListAllFiles` may. */
  function EntriesIn(w: World, job: JobId, path: string, k: nat): seq<FileSpec> {
    if path == "/" && w.source(job).listAllFiles(k).AllFiles? then w.source(job).listAllFiles(k).entries
    else if w.source(job).listEntries(path, k).error.Some? then []
    else w.source(job).listEntries(path, k).entries
  }

  // ----- one visit -----

  lemma {:induction false} DirsInContains(admits: Filter, job: JobId, entries: seq<FileSpec>, path: string)
    ensures Directory(job, path, 0) in DirsIn(admits, job, entries) <==>
      exists e :: e in entries && e.isDirectory && e.path == path && admits(e)
    decreases entries
  {
    if entries == [] {
    } else {
      DirsInContains(admits, job, entries[1..], path);
      assert entries == [entries[0]] + entries[1..];
    }
  }

  /** An attempt sends the admitted files among its entries, and leads to the admitted directories. */
  lemma VisitSends(w: World, d: Directory, f: File, path: string)
    ensures var v, entries := VisitOf(w, d), EntriesIn(w, d.job, d.path, d.retryCounter);
      && (f in v.files <==> f.job == d.job && f.spec in entries && !f.spec.isDirectory && w.admits(d.job)(f.spec))
      && (Directory(d.job, path, 0) in v.pushed <==>
            exists e :: e in entries && e.isDirectory && e.path == path && w.admits(d.job)(e))
  {
    var entries := EntriesIn(w, d.job, d.path, d.retryCounter);
    assert ListDirectory(w, d).entries == entries;
    FilesInContains(w.admits(d.job), d.job, entries, f);
    DirsInContains(w.admits(d.job), d.job, entries, path);
  }

  /** The attempt is one that is made: the ones before it have failed. */
  predicate IsMade(w: World, d: Directory) {
    d.retryCounter < AttemptsFor(w, d.job, d.path)
  }

  /** The last attempt. */
  predicate IsLast(w: World, d: Directory) {
    d.retryCounter + 1 == AttemptsFor(w, d.job, d.path)
  }

  /** An attempt that is not the last one leads to the next and reports nothing; the last one reports the outcome. */
  predicate Fits(w: World, v: Visit) {
    && IsMade(w, v.dir)
    && (v.ending.Postponed? <==> !IsLast(w, v.dir))
    && S.EventOf(v.ending) == (if IsLast(w, v.dir) then [Outcome(w, v.dir.job, v.dir.path)] else [])
    && (v.ending in {GaveUp, JobSkipped} <==>
          IsLast(w, v.dir) && Outcome(w, v.dir.job, v.dir.path) != DirectoryEvent(false))
    && forall d | d in v.pushed :: d.retryCounter == 0
  }

  lemma VisitFits(w: World, d: Directory)
    requires IsMade(w, d)
    ensures Fits(w, VisitOf(w, d)) && VisitOf(w, d).dir == d
  {
    assert ListDirectory(w, d).error == ErrorOf(w, d.job, d.path, d.retryCounter);
    DirsComeFromEntries(w.admits(d.job), d.job, ListDirectory(w, d).entries);
  }

  ghost predicate AllFit(w: World, visit: Visitor) {
    forall d | IsMade(w, d) :: FitsAt(w, visit(d), d)
  }

  predicate FitsAt(w: World, v: Visit, d: Directory) {
    Fits(w, v) && v.dir == d
  }

  lemma VisitorFits(w: World)
    ensures AllFit(w, VisitorOf(w))
  {
    forall d | IsMade(w, d)
      ensures FitsAt(w, VisitorOf(w)(d), d)
    {
      VisitFits(w, d);
    }
  }

  predicate AllMade(w: World, stack: seq<Directory>) {
    forall d | d in stack :: IsMade(w, d)
  }

  lemma AfterIsMade(w: World, visit: Visitor, stack: seq<Directory>)
    requires AllFit(w, visit) && AllMade(w, stack) && stack != []
    ensures AllMade(w, After(visit, stack)) && FitsAt(w, visit(stack[|stack| - 1]), stack[|stack| - 1])
  {
    var d := stack[|stack| - 1];
    assert IsMade(w, d) && FitsAt(w, visit(d), d);
  }

  /** Every visit of the walk is an attempt that is made. */
  lemma {:induction false} WalkFits(w: World, visit: Visitor, rank: Rank, stack: seq<Directory>)
    requires Finite(visit, rank) && AllFit(w, visit) && AllMade(w, stack)
    ensures forall v | v in Walk(visit, rank, stack) :: Fits(w, v)
    decreases |SubwalkAll(visit, rank, stack)|
  {
    if stack == [] {
    } else {
      WalkUnfolds(visit, rank, stack);
      AfterIsMade(w, visit, stack);
      WalkFits(w, visit, rank, After(visit, stack));
    }
  }

  // ----- the whole walk -----

  /** The attempts that are still to be made for one directory on the stack. */
  function ToMake(w: World, ds: seq<Directory>, job: JobId, path: string): int {
    if ds == [] then 0
    else
      (if Is(ds[0], job, path) == 1 then AttemptsFor(w, job, path) - ds[0].retryCounter else 0)
        + ToMake(w, ds[1..], job, path)
  }

  /** How often an event is reported for it. */
  function Tells(visits: seq<Visit>, job: JobId, path: string, event: ReportEvent): nat {
    if visits == [] then 0
    else
      (if S.EventOf(visits[0].ending) == [event] then Is(visits[0].dir, job, path) else 0)
        + Tells(visits[1..], job, path, event)
  }

  lemma {:induction false} ToMakeConcat(w: World, a: seq<Directory>, b: seq<Directory>, job: JobId, path: string)
    ensures ToMake(w, a + b, job, path) == ToMake(w, a, job, path) + ToMake(w, b, job, path)
    decreases a
  {
    if a == [] {
      assert a + b == b;
    } else {
      assert (a + b)[1..] == a[1..] + b;
      ToMakeConcat(w, a[1..], b, job, path);
    }
  }

  lemma {:induction false} FreshToMake(w: World, ds: seq<Directory>, job: JobId, path: string)
    requires forall d | d in ds :: d.retryCounter == 0
    ensures ToMake(w, ds, job, path) == AttemptsInAll(w, job, path, Occurs(ds, job, path))
    decreases ds
  {
    if ds == [] {
    } else {
      FreshToMake(w, ds[1..], job, path);
    }
  }

  /** One iteration makes one attempt. */
  lemma IterationMakes(w: World, v: Visit, front: seq<Directory>, job: JobId, path: string)
    requires Fits(w, v)
    ensures var before, after := front + [v.dir], v.Again() + (front + v.pushed);
      ToMake(w, after, job, path) + Is(v.dir, job, path)
      == ToMake(w, before, job, path) + AttemptsInAll(w, job, path, Occurs(v.pushed, job, path))
  {
    FreshToMake(w, v.pushed, job, path);
    ToMakeConcat(w, front, [v.dir], job, path);
    ToMakeConcat(w, front, v.pushed, job, path);
    ToMakeConcat(w, v.Again(), front + v.pushed, job, path);
    assert [v.dir][1..] == [];
    if v.ending.Postponed? {
      assert v.Again()[1..] == [];
    }
  }

  /** One more visit, in front of a walk. */
  lemma OneMoreVisit(w: World, v: Visit, front: seq<Directory>, rest: seq<Visit>, job: JobId, path: string)
    requires Fits(w, v)
    requires var after := v.Again() + (front + v.pushed);
      Tries(rest, job, path) == ToMake(w, after, job, path) + AttemptsInAll(w, job, path, Finds(rest, job, path))
    ensures var walk := [v] + rest;
      Tries(walk, job, path)
      == ToMake(w, front + [v.dir], job, path) + AttemptsInAll(w, job, path, Finds(walk, job, path))
  {
    IterationMakes(w, v, front, job, path);
    assert ([v] + rest)[1..] == rest;
  }

  lemma {:induction false} WalkMakes(w: World, visit: Visitor, rank: Rank, stack: seq<Directory>, job: JobId,
                                     path: string)
    requires Finite(visit, rank) && AllFit(w, visit) && AllMade(w, stack)
    ensures var walk := Walk(visit, rank, stack);
      Tries(walk, job, path) == ToMake(w, stack, job, path) + AttemptsInAll(w, job, path, Finds(walk, job, path))
    decreases |SubwalkAll(visit, rank, stack)|
  {
    if stack == [] {
    } else {
      var d, front := stack[|stack| - 1], stack[..|stack| - 1];
      assert stack == front + [d];
      WalkUnfolds(visit, rank, stack);
      AfterIsMade(w, visit, stack);
      WalkMakes(w, visit, rank, After(visit, stack), job, path);
      OneMoreVisit(w, visit(d), front, Walk(visit, rank, After(visit, stack)), job, path);
    }
  }

  /** Final outcomes are reported as such, and nothing else is. */
  lemma {:induction false} EndsAreTold(w: World, visits: seq<Visit>, job: JobId, path: string, event: ReportEvent)
    requires forall v | v in visits :: Fits(w, v)
    ensures Tells(visits, job, path, event) == if event == Outcome(w, job, path) then Ends(visits, job, path) else 0
    decreases visits
  {
    if visits == [] {
    } else {
      assert visits[0] in visits && forall v | v in visits[1..] :: v in visits;
      EndsAreTold(w, visits[1..], job, path, event);
    }
  }

  /** The attempts for one directory, and how often the event is reported for it. */
  predicate HasOutcome(w: World, walk: seq<Visit>, stack: seq<Directory>, job: JobId, path: string,
                       event: ReportEvent) {
    var n := Occurs(stack, job, path) + Finds(walk, job, path);
    && Tries(walk, job, path) == AttemptsInAll(w, job, path, n)
    && Tells(walk, job, path, event) == if event == Outcome(w, job, path) then n else 0
  }

  /**
   * Each directory is tried until it can be listed, its signature is refused, or it has
   * failed three times; and exactly that is reported about it, once for each time it is on
   * the stack at the beginning or found later. So a job whose signature is refused is
   * skipped at once, and a directory is given up exactly if its third attempt fails, too.
   */
  lemma DirectoryOutcomes(w: World, rank: Rank, stack: seq<Directory>, job: JobId, path: string, event: ReportEvent)
    requires Finite(VisitorOf(w), rank) && forall d | d in stack :: d.retryCounter == 0
    ensures HasOutcome(w, Walk(VisitorOf(w), rank, stack), stack, job, path, event)
  {
    var visit := VisitorOf(w);
    VisitorFits(w);
    WalkMakes(w, visit, rank, stack, job, path);
    FreshToMake(w, stack, job, path);
    WalkFits(w, visit, rank, stack);
    EndsAreTold(w, Walk(visit, rank, stack), job, path, event);
    EveryDirectoryEndsOnce(visit, rank, stack, job, path);
  }

  // ----- which jobs are incomplete -----

  lemma {:induction false} TriedIsVisited(visits: seq<Visit>, job: JobId, path: string)
    ensures Tries(visits, job, path) > 0 <==> exists v :: v in visits && v.dir.job == job && v.dir.path == path
    decreases visits
  {
    if visits == [] {
    } else {
      TriedIsVisited(visits[1..], job, path);
      assert visits == [visits[0]] + visits[1..];
    }
  }

  lemma {:induction false} ToldByVisit(visits: seq<Visit>, job: JobId, path: string, event: ReportEvent)
    returns (v: Visit)
    requires Tells(visits, job, path, event) > 0
    ensures v in visits && v.dir.job == job && v.dir.path == path && S.EventOf(v.ending) == [event]
    decreases visits
  {
    if S.EventOf(visits[0].ending) == [event] && Is(visits[0].dir, job, path) == 1 {
      v := visits[0];
    } else {
      v := ToldByVisit(visits[1..], job, path, event);
    }
  }

  /** A directory that is visited comes to its outcome. */
  lemma OutcomeIsTold(w: World, walk: seq<Visit>, stack: seq<Directory>, visited: Visit) returns (v: Visit)
    requires visited in walk
    requires var d := visited.dir; HasOutcome(w, walk, stack, d.job, d.path, Outcome(w, d.job, d.path))
    ensures v in walk && v.dir.job == visited.dir.job && v.dir.path == visited.dir.path
    ensures S.EventOf(v.ending) == [Outcome(w, v.dir.job, v.dir.path)]
  {
    var job, path := visited.dir.job, visited.dir.path;
    TriedIsVisited(walk, job, path);
    v := ToldByVisit(walk, job, path, Outcome(w, job, path));
  }

  /** A job is incomplete exactly if a directory of it is given up, or its signature is refused. */
  lemma IncompleteIff(w: World, rank: Rank, stack: seq<Directory>, job: JobId)
    requires Finite(VisitorOf(w), rank) && forall d | d in stack :: d.retryCounter == 0
    ensures var walk := Walk(VisitorOf(w), rank, stack);
      job in S.IncompleteIn(walk) <==>
      exists v :: v in walk && v.dir.job == job && Outcome(w, job, v.dir.path) != DirectoryEvent(false)
  {
    var walk := Walk(VisitorOf(w), rank, stack);
    VisitorFits(w);
    WalkFits(w, VisitorOf(w), rank, stack);
    if job in S.IncompleteIn(walk) {
      var v :| v in walk && v.ending in {GaveUp, JobSkipped} && v.dir.job == job;
      assert Fits(w, v);
    }
    if u :| u in walk && u.dir.job == job && Outcome(w, job, u.dir.path) != DirectoryEvent(false) {
      DirectoryOutcomes(w, rank, stack, job, u.dir.path, Outcome(w, job, u.dir.path));
      var v := OutcomeIsTold(w, walk, stack, u);
      assert Fits(w, v);
    }
  }

  lemma GivenUpFails(w: World, v: Visit)
    requires Fits(w, v)
    ensures v.ending.GaveUp? ==> AlwaysFails(w, v.dir.job, v.dir.path)
    ensures S.EventOf(v.ending) == [DirectoryEvent(true)] ==> v.ending.GaveUp?
  {
    if v.ending.GaveUp? {
      assert S.EventOf(v.ending)[0] == DirectoryEvent(true);
    }
  }

  /** Some visit ends with giving up exactly if a directory that is visited fails three times. */
  lemma GivenUpIff(w: World, rank: Rank, stack: seq<Directory>)
    requires Finite(VisitorOf(w), rank) && forall d | d in stack :: d.retryCounter == 0
    ensures var walk := Walk(VisitorOf(w), rank, stack);
      (exists v :: v in walk && v.ending.GaveUp?) <==>
      (exists v :: v in walk && AlwaysFails(w, v.dir.job, v.dir.path))
  {
    var walk := Walk(VisitorOf(w), rank, stack);
    VisitorFits(w);
    WalkFits(w, VisitorOf(w), rank, stack);
    if v :| v in walk && v.ending.GaveUp? {
      GivenUpFails(w, v);
    }
    if u :| u in walk && AlwaysFails(w, u.dir.job, u.dir.path) {
      DirectoryOutcomes(w, rank, stack, u.dir.job, u.dir.path, DirectoryEvent(true));
      var v := OutcomeIsTold(w, walk, stack, u);
      GivenUpFails(w, v);
    }
  }
}
