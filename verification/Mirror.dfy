/** From the source tree to the target: the scraper's walk as the script of the pipeline. */
module Mirror {
  import opened Base
  import opened Objects
  import opened Reports
  import opened Locations
  import opened Scraping
  import opened ScrapeTree
  import opened ScrapeJob
  import opened ScrapeListing
  import S = Scraper
  import O = ScrapeOutcomes
  import P = Pipeline
  import opened PipelineScript
  import opened PipelineCleanup
  import opened PipelineMirror
  import opened PipelineReport

  /** What the iterations of a scrape send and write. */
  function ScriptOf(visits: seq<Visit>): seq<seq<Act>> {
    if visits == [] then [] else ScriptOf(visits[..|visits| - 1]) + [visits[|visits| - 1].Acts()]
  }

  lemma {:induction false} SendsOnly(files: seq<File>)
    ensures SentIn(Sends(files)) == files && MarkedIn(Sends(files)) == {} && ToldIn(Sends(files)) == []
    decreases files
  {
    if files == [] {
    } else {
      assert Sends(files)[0] == Send(files[0]) && Sends(files)[1..] == Sends(files[1..]);
      SendsOnly(files[1..]);
    }
  }

  lemma {:induction false} SentConcat(a: seq<Act>, b: seq<Act>)
    ensures SentIn(a + b) == SentIn(a) + SentIn(b)
    decreases a
  {
    if a == [] {
      assert a + b == b;
    } else {
      assert (a + b)[1..] == a[1..] + b;
      SentConcat(a[1..], b);
      Assoc(if a[0].Send? then [a[0].file] else [], SentIn(a[1..]), SentIn(b));
    }
  }

  lemma {:induction false} MarkedConcat(a: seq<Act>, b: seq<Act>)
    ensures MarkedIn(a + b) == MarkedIn(a) + MarkedIn(b)
    decreases a
  {
    if a == [] {
      assert a + b == b;
    } else {
      assert (a + b)[1..] == a[1..] + b;
      MarkedConcat(a[1..], b);
    }
  }

  lemma {:induction false} ToldConcat(a: seq<Act>, b: seq<Act>)
    ensures ToldIn(a + b) == ToldIn(a) + ToldIn(b)
    decreases a
  {
    if a == [] {
      assert a + b == b;
    } else {
      assert (a + b)[1..] == a[1..] + b;
      ToldConcat(a[1..], b);
      Assoc(if a[0].Tell? then [a[0].event] else [], ToldIn(a[1..]), ToldIn(b));
    }
  }

  lemma {:induction false} FlatSnoc(iterations: seq<seq<Act>>, acts: seq<Act>)
    ensures Flat(iterations + [acts]) == Flat(iterations) + acts
    decreases iterations
  {
    if iterations == [] {
      assert iterations + [acts] == [acts] && [acts][1..] == [];
    } else {
      assert (iterations + [acts])[1..] == iterations[1..] + [acts];
      FlatSnoc(iterations[1..], acts);
    }
  }

  lemma ClosingActs(d: Directory, ending: Ending)
    ensures SentIn(Closing(d, ending)) == [] && ToldIn(Closing(d, ending)) == S.EventOf(ending)
    ensures MarkedIn(Closing(d, ending)) == if ending in {GaveUp, JobSkipped} then {d.job} else {}
  {
    if ending in {GaveUp, JobSkipped} {
      var mark, tell := MarkIncomplete(d.job), Tell(S.EventOf(ending)[0]);
      assert Closing(d, ending) == [mark] + [tell];
      assert [tell][1..] == [] && [mark][1..] == [];
      SentConcat([mark], [tell]);
      MarkedConcat([mark], [tell]);
      ToldConcat([mark], [tell]);
    }
  }

  lemma ActsOfVisit(v: Visit)
    ensures SentIn(v.Acts()) == v.files && ToldIn(v.Acts()) == S.EventOf(v.ending)
    ensures MarkedIn(v.Acts()) == if v.ending in {GaveUp, JobSkipped} then {v.dir.job} else {}
  {
    var sends, closing := Sends(v.files), Closing(v.dir, v.ending);
    SendsOnly(v.files);
    ClosingActs(v.dir, v.ending);
    SentConcat(sends, closing);
    MarkedConcat(sends, closing);
    ToldConcat(sends, closing);
  }

  /** The script does what the loop of the scraper does. */
  lemma {:induction false} ScriptDoes(visits: seq<Visit>)
    ensures var acts := Flat(ScriptOf(visits));
      && SentIn(acts) == S.FilesOf(visits)
      && MarkedIn(acts) == S.IncompleteIn(visits)
      && ToldIn(acts) == S.EventsOf(visits)
    decreases visits
  {
    if visits == [] {
    } else {
      var front, v := visits[..|visits| - 1], visits[|visits| - 1];
      assert visits == front + [v];
      ScriptDoes(front);
      S.Snoc(front, v);
      ActsOfVisit(v);
      FlatSnoc(ScriptOf(front), v.Acts());
      var acts := Flat(ScriptOf(front));
      SentConcat(acts, v.Acts());
      MarkedConcat(acts, v.Acts());
      ToldConcat(acts, v.Acts());
    }
  }

  lemma {:induction false} FilesOfContains(visits: seq<Visit>, f: File)
    ensures f in S.FilesOf(visits) <==> exists v :: v in visits && f in v.files
    decreases visits
  {
    if visits == [] {
    } else {
      var front, v := visits[..|visits| - 1], visits[|visits| - 1];
      FilesOfContains(front, f);
      assert visits == front + [v];
    }
  }

  /** The pipeline runs on the scrape of the world. */
  ghost predicate RunsOn(c: P.Config, w: World, rank: Rank, jobs: nat) {
    Finite(VisitorOf(w), rank) && c.script == ScriptOf(Walk(VisitorOf(w), rank, Roots(0, jobs)))
  }

  /** After a run without interrupt, what has been sent for a job is what its scrape yields. */
  lemma SelectedAreSent(c: P.Config, steps: seq<P.Step>, w: World, rank: Rank, jobs: nat, job: JobId,
                        selected: set<File>)
    requires RunsOn(c, w, rank, jobs) && job < jobs && Yields(w, rank, job, selected)
    requires P.Runs(c, P.Start(c), steps)
    requires var s := P.End(c, P.Start(c), steps); s.Queue1Closed() && !s.interrupted
    ensures var s := P.End(c, P.Start(c), steps);
      && (forall f: File | f.job == job :: f in s.history.sent <==> f in selected)
      && job !in s.incomplete
  {
    var s, walk := P.End(c, P.Start(c), steps), Walk(VisitorOf(w), rank, Roots(0, jobs));
    WholeScript(c, steps);
    ScriptDoes(walk);
    JobIsScraped(w, rank, jobs, job, selected);
    forall f: File | f.job == job
      ensures f in s.history.sent <==> f in selected
    {
      FilesOfContains(walk, f);
    }
    assert job !in S.IncompleteIn(walk);
  }

  /** The run came to its end, and nothing has failed for the job, which deletes unknown files. */
  predicate WentWell(c: P.Config, s: P.State, job: JobId) {
    && s.main.stage.Exited? && !s.interrupted && c.strategy(job).DeleteUnknownFiles?
    && NoneFailed(s, job) && job !in s.cleaner.troubled
  }

  lemma WellIsMirrorable(c: P.Config, steps: seq<P.Step>, w: World, rank: Rank, jobs: nat, job: JobId,
                         selected: set<File>)
    requires RunsOn(c, w, rank, jobs) && job < jobs && Yields(w, rank, job, selected)
    requires selected != {} && forall f | f in selected :: f.job == job
    requires P.Runs(c, P.Start(c), steps) && WentWell(c, P.End(c, P.Start(c), steps), job)
    ensures var s := P.End(c, P.Start(c), steps);
      Mirrorable(c, s, job) && forall f: File | f.job == job :: f in s.history.sent <==> f in selected
  {
    PipelineDiscipline.AlwaysDisciplined(c, steps);
    SelectedAreSent(c, steps, w, rank, jobs, job, selected);
    var f :| f in selected;
    assert f in P.End(c, P.Start(c), steps).history.sent && f.job == job;
  }

  /**
   * The mirror of a source: after a run that was not interrupted, if a job deletes unknown
   * files, its scrape yields certain files (at least one), none of them has failed, and its
   * bulk delete has succeeded, then the objects of the job on the target side are exactly
   * those of these files.
   */
  lemma TargetMirrorsSource(c: P.Config, steps: seq<P.Step>, w: World, rank: Rank, jobs: nat, job: JobId,
                            selected: set<File>)
    requires c.workers >= 1 && Separate(c) && RunsOn(c, w, rank, jobs) && job < jobs
    requires Yields(w, rank, job, selected) && selected != {} && forall f | f in selected :: f.job == job
    requires P.Runs(c, P.Start(c), steps) && WentWell(c, P.End(c, P.Start(c), steps), job)
    ensures ObjectsOf(c, P.End(c, P.Start(c), steps), job) == set f | f in selected :: c.name(f)
  {
    WellIsMirrorable(c, steps, w, rank, jobs, job, selected);
    MirrorIsExact(c, steps, job);
  }

  /**
   * If moreover files were only uploaded in the version of the source, and only skipped if
   * the version found was that one, then each of these objects has this version, except
   * for immutable ones that were there before.
   */
  lemma TargetIsCurrent(c: P.Config, steps: seq<P.Step>, w: World, rank: Rank, jobs: nat, job: JobId,
                        selected: set<File>)
    requires c.workers >= 1 && Separate(c) && RunsOn(c, w, rank, jobs) && job < jobs
    requires Yields(w, rank, job, selected) && selected != {} && forall f | f in selected :: f.job == job
    requires P.Runs(c, P.Start(c), steps) && WentWell(c, P.End(c, P.Start(c), steps), job)
    requires Suits(c, SourceVersion(c)) && FitRun(c, SourceVersion(c), P.Start(c), steps)
    ensures var s := P.End(c, P.Start(c), steps);
      forall f | f in selected :: c.name(f) in s.target && (c.Fixed(f) || s.target[c.name(f)] == c.version(f))
  {
    WellIsMirrorable(c, steps, w, rank, jobs, job, selected);
    MirrorIsCurrent(c, steps, job);
  }

  /**
   * For a source that lists one directory at a time, if every directory of its tree can be
   * listed: the objects are those of the files that the rules select from the tree.
   */
  lemma TargetMirrorsTree(c: P.Config, steps: seq<P.Step>, w: World, rank: Rank, jobs: nat, job: JobId)
    requires c.workers >= 1 && Separate(c) && RunsOn(c, w, rank, jobs) && job < jobs
    requires JobIsListed(w, rank, job) && Selected(w, rank, job) != {}
    requires P.Runs(c, P.Start(c), steps) && WentWell(c, P.End(c, P.Start(c), steps), job)
    ensures ObjectsOf(c, P.End(c, P.Start(c), steps), job) == set f | f in Selected(w, rank, job) :: c.name(f)
  {
    TreeYields(w, rank, job);
    TargetMirrorsSource(c, steps, w, rank, jobs, job, Selected(w, rank, job));
  }

  /**
   * For a source that lists all files at once, if an attempt succeeds and failed ones list
   * a part of what it lists: the objects are those of the files that the rules select from
   * the final listing.
   */
  lemma TargetMirrorsListing(c: P.Config, steps: seq<P.Step>, w: World, rank: Rank, jobs: nat, job: JobId)
    requires c.workers >= 1 && Separate(c) && RunsOn(c, w, rank, jobs) && job < jobs
    requires Succeeds(w, job, 0) && FailuresArePartial(w, job, 0, Final(w, job, 0))
    requires SelectedFrom(w, job, set e | e in Final(w, job, 0)) != {}
    requires P.Runs(c, P.Start(c), steps) && WentWell(c, P.End(c, P.Start(c), steps), job)
    ensures ObjectsOf(c, P.End(c, P.Start(c), steps), job)
      == set f | f in SelectedFrom(w, job, set e | e in Final(w, job, 0)) :: c.name(f)
  {
    FinalListingYields(w, rank, job);
    TargetMirrorsSource(c, steps, w, rank, jobs, job, SelectedFrom(w, job, set e | e in Final(w, job, 0)));
  }

  // ----- targets -----

  /** The pipeline uses the locations of the jobs. */
  ghost predicate Uses(c: P.Config, locations: JobId -> Location) {
    && (forall job: JobId, n: ObjectName :: c.owns(job, n) <==> locations(job).Owns(n))
    && (forall f: File :: c.name(f) == locations(f.job).ObjectAtPath(f.spec.path))
  }

  predicate Overlap(a: Location, b: Location) {
    a.container == b.container && (a.prefix <= b.prefix || b.prefix <= a.prefix)
  }

  /** Nothing that the scraper finds for a job leads to the same object in two versions. */
  ghost predicate OneVersionEach(c: P.Config) {
    forall f: File, g: File | Known(c, f) && Known(c, g) ::
      f.job == g.job && TrimSlash(f.spec.path) == TrimSlash(g.spec.path) ==> c.version(f) == c.version(g)
  }

  /** The targets are separate if no two locations overlap. */
  lemma LocationsAreSeparate(c: P.Config, locations: JobId -> Location)
    requires Uses(c, locations)
    requires forall i: JobId, j: JobId :: i != j ==> !Overlap(locations(i), locations(j))
    ensures Separate(c)
  {
    forall i: JobId, j: JobId, n: ObjectName | c.owns(i, n) && c.owns(j, n)
      ensures i == j
    {
      TargetsOverlap(locations(i), locations(j));
      assert locations(i).Owns(n) && locations(j).Owns(n);
    }
  }

  /** Then the version of the source suits if nothing that is found for a job has two versions. */
  lemma LocationsSuit(c: P.Config, locations: JobId -> Location)
    requires Uses(c, locations) && OneVersionEach(c)
    requires forall i: JobId, j: JobId :: i != j ==> !Overlap(locations(i), locations(j))
    ensures Suits(c, SourceVersion(c))
  {
    forall f: File, g: File | Known(c, f) && Known(c, g) && c.name(f) == c.name(g)
      ensures c.version(f) == c.version(g)
    {
      TargetsOverlap(locations(f.job), locations(g.job));
      assert locations(f.job).Owns(c.name(f)) && locations(g.job).Owns(c.name(g));
      SameObject(locations(f.job), f.spec.path, g.spec.path);
    }
  }

  // ----- the exit code -----

  predicate SomeGivenUp(visits: seq<Visit>) {
    exists v :: v in visits && v.ending.GaveUp?
  }

  lemma {:induction false} EventsTell(visits: seq<Visit>)
    ensures (forall e | e in S.EventsOf(visits) :: !e.FileEvent?)
    ensures GivesUp(S.EventsOf(visits)) <==> SomeGivenUp(visits)
    decreases visits
  {
    if visits == [] {
    } else {
      var front, v := visits[..|visits| - 1], visits[|visits| - 1];
      EventsTell(front);
      assert visits == front + [v];
      var events, last := S.EventsOf(front), S.EventOf(v.ending);
      assert S.EventsOf(visits) == events + last;
      assert GivesUp(last) <==> v.ending.GaveUp? by {
        assert v.ending.GaveUp? ==> last[0] == DirectoryEvent(true) && last[0] in last;
      }
      assert GivesUp(events + last) <==> GivesUp(events) || GivesUp(last);
      assert SomeGivenUp(front + [v]) <==> SomeGivenUp(front) || v.ending.GaveUp?;
    }
  }

  lemma {:induction false} RootsAreFresh(from: nat, jobs: nat)
    requires from <= jobs
    ensures forall d | d in Roots(from, jobs) :: d.retryCounter == 0
    decreases jobs - from
  {
    if from == jobs {
    } else {
      RootsAreFresh(from + 1, jobs);
    }
  }

  /**
   * The exit code after a run that was not interrupted: it signals a failure exactly if a
   * file could not be transferred or all three attempts to list a directory have failed. A
   * job that was skipped for its signature does not matter.
   */
  lemma ExitCodeAfterScrape(c: P.Config, steps: seq<P.Step>, w: World, rank: Rank, jobs: nat)
    requires RunsOn(c, w, rank, jobs) && P.Runs(c, P.Start(c), steps)
    requires var s := P.End(c, P.Start(c), steps); s.main.stage.Exited? && !s.interrupted
    ensures var s, walk := P.End(c, P.Start(c), steps), Walk(VisitorOf(w), rank, Roots(0, jobs));
      && s.reporter.exitCode in {0, 1}
      && (s.reporter.exitCode == 1 <==>
            FailsFinally(s.cleaner.collected) || exists v :: v in walk && O.AlwaysFails(w, v.dir.job, v.dir.path))
  {
    var walk := Walk(VisitorOf(w), rank, Roots(0, jobs));
    RootsAreFresh(0, jobs);
    O.GivenUpIff(w, rank, Roots(0, jobs));
    ScriptDoes(walk);
    EventsTell(walk);
    ExitCodeTells(c, steps);
  }

  /**
   * Whenever anything is deleted for a job, all directories of it that the scraper has come
   * to have been listed: none has failed three times, and no signature was refused.
   */
  lemma CleanupNeedsWholeScrape(c: P.Config, steps: seq<P.Step>, w: World, rank: Rank, jobs: nat, job: JobId,
                                deleted: set<ObjectName>)
    requires c.workers >= 1 && RunsOn(c, w, rank, jobs) && P.Runs(c, P.Start(c), steps)
    requires P.Can(c, P.End(c, P.Start(c), steps), P.ByCleaner(P.CleanJob(job, deleted)))
    requires P.Deletes(c, P.End(c, P.Start(c), steps), P.CleanJob(job, deleted))
    ensures var walk := Walk(VisitorOf(w), rank, Roots(0, jobs));
      forall v | v in walk && v.dir.job == job :: O.Outcome(w, job, v.dir.path) == DirectoryEvent(false)
  {
    CleanupIsSafe(c, steps, job, deleted);
    WholeScript(c, steps);
    ScriptDoes(Walk(VisitorOf(w), rank, Roots(0, jobs)));
    RootsAreFresh(0, jobs);
    O.IncompleteIff(w, rank, Roots(0, jobs), job);
  }
}
