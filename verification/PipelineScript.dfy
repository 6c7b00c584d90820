/** The scraper's work in the pipeline: it sends what its iterations say, in order, or a part of that. */
module PipelineScript {
  import opened Base
  import opened Objects
  import opened Scraping
  import P = Pipeline
  import opened PipelineDiscipline

  function SentIn(acts: seq<Act>): seq<File> {
    if acts == [] then [] else (if acts[0].Send? then [acts[0].file] else []) + SentIn(acts[1..])
  }

  function MarkedIn(acts: seq<Act>): set<JobId> {
    if acts == [] then {} else (if acts[0].MarkIncomplete? then {acts[0].job} else {}) + MarkedIn(acts[1..])
  }

  function ToldIn(acts: seq<Act>): seq<ReportEvent> {
    if acts == [] then [] else (if acts[0].Tell? then [acts[0].event] else []) + ToldIn(acts[1..])
  }

  /** All acts of the iterations. */
  function Flat(iterations: seq<seq<Act>>): seq<Act> {
    if iterations == [] then [] else iterations[0] + Flat(iterations[1..])
  }

  /** What the scraper has still to do. */
  function ToDo(s: P.State): seq<Act> {
    s.scraper.acts + Flat(s.scraper.iterations)
  }

  predicate Follows(c: P.Config, s: P.State) {
    && s.history.sent + SentIn(ToDo(s)) == SentIn(Flat(c.script))
    && s.incomplete + MarkedIn(ToDo(s)) == MarkedIn(Flat(c.script))
    && (s.Queue1Closed() && !s.scraper.early ==> ToDo(s) == [])
  }

  lemma StepKeepsFollowing(c: P.Config, s: P.State, step: P.Step)
    requires Follows(c, s) && P.Can(c, s, step)
    ensures Follows(c, P.After(c, s, step))
  {
    var t := P.After(c, s, step);
    if step.ByScraper? {
      ScraperKeepsFollowing(c, s, step.sm);
    } else {
      assert t.scraper == s.scraper && t.history.sent == s.history.sent && t.incomplete == s.incomplete;
    }
  }

  lemma ScraperKeepsFollowing(c: P.Config, s: P.State, m: P.ScraperMove)
    requires Follows(c, s) && P.ScraperCan(s, m)
    ensures Follows(c, P.ScraperStep(s, m))
  {
    if m.Perform? {
      PerformKeepsFollowing(c, s);
    } else {
      assert ToDo(P.ScraperStep(s, m)) == ToDo(s);
    }
  }

  lemma PerformKeepsFollowing(c: P.Config, s: P.State)
    requires Follows(c, s) && P.ScraperCan(s, P.Perform)
    ensures Follows(c, P.ScraperStep(s, P.Perform))
  {
    var acts, t := s.scraper.acts, P.ScraperStep(s, P.Perform);
    var rest := ToDo(t);
    assert t.scraper.acts == acts[1..] && t.scraper.iterations == s.scraper.iterations;
    assert ToDo(s) == [acts[0]] + rest && ToDo(s)[1..] == rest;
    if acts[0].Send? {
      Assoc(s.history.sent, [acts[0].file], SentIn(rest));
    }
  }

  lemma {:induction false} AlwaysFollows(c: P.Config, steps: seq<P.Step>)
    requires P.Runs(c, P.Start(c), steps)
    ensures Follows(c, P.End(c, P.Start(c), steps))
  {
    assert ToDo(P.Start(c)) == Flat(c.script);
    FollowsOn(c, P.Start(c), steps);
  }

  lemma {:induction false} FollowsOn(c: P.Config, s: P.State, steps: seq<P.Step>)
    requires Follows(c, s) && P.Runs(c, s, steps)
    ensures Follows(c, P.End(c, s, steps))
    decreases steps
  {
    if steps == [] {
    } else {
      StepKeepsFollowing(c, s, steps[0]);
      FollowsOn(c, P.After(c, s, steps[0]), steps[1..]);
    }
  }

  /** Without an interrupt, the whole work has been done when the first queue is closed. */
  lemma WholeScript(c: P.Config, steps: seq<P.Step>)
    requires P.Runs(c, P.Start(c), steps)
    ensures var s := P.End(c, P.Start(c), steps);
      && s.history.sent <= SentIn(Flat(c.script))
      && (s.Queue1Closed() && !s.interrupted ==>
            s.history.sent == SentIn(Flat(c.script)) && s.incomplete == MarkedIn(Flat(c.script)))
  {
    AlwaysFollows(c, steps);
    AlwaysDisciplined(c, steps);
  }
}
