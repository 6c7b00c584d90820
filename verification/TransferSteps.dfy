/** A transfer of one file is an attempt as the transition system has it. */
module TransferSteps {
  import opened Base
  import opened Objects
  import T = Transfer
  import P = Pipeline
  import M = PipelineMirror

  /** What counts as the version of an object. */
  type Tag = T.Stored -> P.Version

  /** The target side as the pipeline sees it. */
  function View(tag: Tag, t: T.Contents): P.Target {
    map n | n in t :: tag(t[n])
  }

  lemma ViewOfStore(tag: Tag, t: T.Contents, n: ObjectName, s: T.Stored)
    ensures View(tag, t[n := s]) == View(tag, t)[n := tag(s)]
    ensures View(tag, t - {n}) == View(tag, t) - {n}
  {
  }

  function ViewOf(tag: Tag, s: Option<T.Stored>): Option<P.Version> {
    if s.Some? then Some(tag(s.value)) else None
  }

  function LinkTo(to: ObjectName, w: T.World): T.Stored {
    T.Stored([], "", w.now, "", "", None, Some(to))
  }

  function AnswerFor(j: T.Job, f: FileSpec, w: T.World, t: T.Contents): T.Answer {
    T.Ask(f, T.ConditionsFor(j, T.Find(t, j.target.ObjectAtPath(f.path))), w)
  }

  /** The job and the file are those of the pipeline. */
  ghost predicate Represents(c: P.Config, f: File, j: T.Job) {
    && c.name(f) == j.target.ObjectAtPath(f.spec.path)
    && (c.Fixed(f) <==> T.IsImmutable(j, f.spec) && c.name(f) in j.existing)
  }

  /** What is left after the attempt to delete what a failed upload has left. */
  function AfterDelete(tag: Tag, w: T.World, left: Option<T.Stored>): Option<P.Version> {
    if w.deleteFails then ViewOf(tag, left) else None
  }

  /** A look, and the attempt to store an object. */
  function Storing(tag: Tag, t: T.Contents, n: ObjectName, stored: T.Stored, deletesAlways: bool, size: Option<nat>,
                   w: T.World): seq<P.WorkerMove> {
    var found := T.Find(t, n);
    match w.put
    case PutOk => [P.Look, P.Upload(if size.Some? then size.value else 0, tag(stored))]
    case RateLimited =>
      if deletesAlways then [P.Look, P.FailUpload(ViewOf(tag, found)), P.Delete(AfterDelete(tag, w, found))]
      else [P.Look, P.Fail]
    case PutFailed(left) => [P.Look, P.FailUpload(ViewOf(tag, left)), P.Delete(AfterDelete(tag, w, left))]
  }

  /** The moves of the transferor. */
  ghost function Moves(tag: Tag, j: T.Job, f: FileSpec, w: T.World, t: T.Contents): seq<P.WorkerMove> {
    var n, link, answer := j.target.ObjectAtPath(f.path), T.LinkOf(j, f, w), AnswerFor(j, f, w, t);
    if T.IsImmutable(j, f) && n in j.existing then [P.SkipImmutable]
    else if w.headFails then [P.Fail]
    else if link != "" then
      if n in t && t[n].symlink == Some(j.target.ObjectAtPath(link)) then [P.Look, P.Skip]
      else Storing(tag, t, n, LinkTo(j.target.ObjectAtPath(link), w), true, Some(0), w)
    else if answer.GetFailed? then [P.Look, P.Fail]
    else if answer.state.skipTransfer then [P.Look, P.Skip]
    else
      var stored, size := T.Upload(j, answer.state, answer.body, w), answer.state.size;
      Storing(tag, t, n, stored, T.IsLarge(j, size), size, w)
  }

  /** The same transferor makes all the moves. */
  function By(i: nat, moves: seq<P.WorkerMove>): seq<P.Step> {
    seq(|moves|, k requires 0 <= k < |moves| => P.ByWorker(i, moves[k]))
  }

  /** The transferor with the outcome of the transfer in its hands, or the file on its retry list. */
  function Afterwards(w: P.Worker, f: File, outcome: T.Outcome): P.Worker {
    if outcome.Panics? || outcome.result.Failed? then P.Failing(w, f)
    else w.(phase := P.Handing(f, P.Outcome(outcome.result, outcome.bytes)))
  }

  // ----- running the moves -----

  lemma OneMove(c: P.Config, s: P.State, i: nat, m: P.WorkerMove, rest: seq<P.WorkerMove>)
    requires i < |s.workers| && P.WorkerCan(c, s, s.workers[i], m)
    requires P.Runs(c, P.WorkerStep(c, s, i, m), By(i, rest))
    ensures P.Runs(c, s, By(i, [m] + rest))
    ensures P.End(c, s, By(i, [m] + rest)) == P.End(c, P.WorkerStep(c, s, i, m), By(i, rest))
  {
    assert By(i, [m] + rest)[1..] == By(i, rest) && By(i, [m] + rest)[0] == P.ByWorker(i, m);
  }

  /** The moves can be made, and lead to this target and this transferor. */
  ghost predicate Leads(c: P.Config, s: P.State, i: nat, moves: seq<P.WorkerMove>, target: P.Target, w: P.Worker) {
    && P.Runs(c, s, By(i, moves))
    && var e := P.End(c, s, By(i, moves)); e.target == target && i < |e.workers| && e.workers[i] == w
  }

  lemma LastMove(c: P.Config, s: P.State, i: nat, m: P.WorkerMove)
    requires i < |s.workers| && P.WorkerCan(c, s, s.workers[i], m)
    ensures Leads(c, s, i, [m], P.TargetAfter(c, s.target, s.workers[i], m), P.Moved(c, s, s.workers[i], m))
  {
    assert [m] == [m] + [];
    assert By(i, []) == [];
    OneMove(c, s, i, m, []);
  }

  lemma FirstMove(c: P.Config, s: P.State, i: nat, m: P.WorkerMove, rest: seq<P.WorkerMove>,
                  target: P.Target, w: P.Worker)
    requires i < |s.workers| && P.WorkerCan(c, s, s.workers[i], m)
    requires Leads(c, P.WorkerStep(c, s, i, m), i, rest, target, w)
    ensures Leads(c, s, i, [m] + rest, target, w)
  {
    OneMove(c, s, i, m, rest);
  }

  ghost predicate Begins(c: P.Config, tag: Tag, s: P.State, i: nat, f: File, t: T.Contents) {
    && i < |s.workers| && s.workers[i].phase == P.Trying(f) && s.target == View(tag, t)
  }

  /** A look and one more move. */
  lemma LookThen(c: P.Config, s: P.State, i: nat, f: File, m: P.WorkerMove)
    requires i < |s.workers| && s.workers[i].phase == P.Trying(f) && !c.Fixed(f)
    requires m.Upload? || m.Fail? || (m.Skip? && c.name(f) in s.target)
    ensures var w := s.workers[i].(phase := P.Looked(f, P.Found(s.target, c.name(f))));
      && P.WorkerCan(c, s, w, m)
      && Leads(c, s, i, [P.Look, m], P.TargetAfter(c, s.target, w, m), P.Moved(c, s, w, m))
  {
    var s1 := P.WorkerStep(c, s, i, P.Look);
    LastMove(c, s1, i, m);
    var w := s1.workers[i];
    FirstMove(c, s, i, P.Look, [m], P.TargetAfter(c, s1.target, w, m), P.Moved(c, s1, w, m));
    assert [P.Look, m] == [P.Look] + [m];
  }

  /** A look, a failed upload and a deletion. */
  lemma LookThenBreak(c: P.Config, s: P.State, i: nat, f: File, left: Option<P.Version>, kept: Option<P.Version>)
    requires i < |s.workers| && s.workers[i].phase == P.Trying(f) && !c.Fixed(f)
    ensures Leads(c, s, i, [P.Look, P.FailUpload(left), P.Delete(kept)],
                  P.Store(P.Store(s.target, c.name(f), left), c.name(f), kept), P.Failing(s.workers[i], f))
  {
    var s1 := P.WorkerStep(c, s, i, P.Look);
    var s2 := P.WorkerStep(c, s1, i, P.FailUpload(left));
    var target := P.Store(P.Store(s.target, c.name(f), left), c.name(f), kept);
    LastMove(c, s2, i, P.Delete(kept));
    FirstMove(c, s1, i, P.FailUpload(left), [P.Delete(kept)], target, P.Failing(s.workers[i], f));
    assert [P.FailUpload(left), P.Delete(kept)] == [P.FailUpload(left)] + [P.Delete(kept)];
    FirstMove(c, s, i, P.Look, [P.FailUpload(left), P.Delete(kept)], target, P.Failing(s.workers[i], f));
    assert [P.Look, P.FailUpload(left), P.Delete(kept)] == [P.Look] + [P.FailUpload(left), P.Delete(kept)];
  }

  /** What a failed upload leaves on the target side, in both views. */
  lemma ViewAfterBreak(tag: Tag, t: T.Contents, n: ObjectName, left: Option<T.Stored>, w: T.World)
    ensures View(tag, T.CleanedUp(t, n, left, w))
      == P.Store(P.Store(View(tag, t), n, ViewOf(tag, left)), n, AfterDelete(tag, w, left))
  {
    if left.Some? {
      ViewOfStore(tag, t, n, left.value);
    }
    assert View(tag, t - {n}) == View(tag, t) - {n};
  }

  lemma StoreIsAttempt(c: P.Config, tag: Tag, s: P.State, i: nat, f: File, t: T.Contents, stored: T.Stored,
                       deletesAlways: bool, size: Option<nat>, w: T.World)
    requires Begins(c, tag, s, i, f, t) && !c.Fixed(f) && (w.put.PutOk? ==> size.Some?)
    ensures var (t', outcome) := T.Try(t, c.name(f), stored, deletesAlways, size, w);
      Leads(c, s, i, Storing(tag, t, c.name(f), stored, deletesAlways, size, w), View(tag, t'),
        Afterwards(s.workers[i], f, outcome))
  {
    var n := c.name(f);
    match w.put
    case PutOk =>
      ViewOfStore(tag, t, n, stored);
      LookThen(c, s, i, f, P.Upload(size.value, tag(stored)));
    case RateLimited =>
      if deletesAlways {
        ViewAfterBreak(tag, t, n, T.Find(t, n), w);
        LookThenBreak(c, s, i, f, ViewOf(tag, T.Find(t, n)), AfterDelete(tag, w, T.Find(t, n)));
      } else {
        LookThen(c, s, i, f, P.Fail);
      }
    case PutFailed(left) =>
      ViewAfterBreak(tag, t, n, left, w);
      LookThenBreak(c, s, i, f, ViewOf(tag, left), AfterDelete(tag, w, left));
  }

  /**
   * Every transfer is an attempt of the pipeline, whatever the file is and however files are
   * compared: a transferor that holds the file can make these moves, and if nobody
   * interferes they lead to the same target side and the same result. A source that says
   * "not modified" without having been asked, and a crash, are no part of the pipeline.
   */
  lemma TransferIsAttempt(c: P.Config, tag: Tag, s: P.State, i: nat, f: File, j: T.Job, w: T.World, t: T.Contents)
    requires Begins(c, tag, s, i, f, t) && Represents(c, f, j)
    requires T.AnswersInFull(w) && !T.Perform(j, f.spec, w, t).1.Panics?
    ensures var (t', outcome) := T.Perform(j, f.spec, w, t);
      Leads(c, s, i, Moves(tag, j, f.spec, w, t), View(tag, t'), Afterwards(s.workers[i], f, outcome))
  {
    var n, link, answer := c.name(f), T.LinkOf(j, f.spec, w), AnswerFor(j, f.spec, w, t);
    if c.Fixed(f) {
      LastMove(c, s, i, P.SkipImmutable);
    } else if w.headFails {
      LastMove(c, s, i, P.Fail);
    } else if link != "" {
      var to := j.target.ObjectAtPath(link);
      if n in t && t[n].symlink == Some(to) {
        LookThen(c, s, i, f, P.Skip);
      } else {
        StoreIsAttempt(c, tag, s, i, f, t, LinkTo(to, w), true, Some(0), w);
      }
    } else if answer.GetFailed? {
      LookThen(c, s, i, f, P.Fail);
    } else if answer.state.skipTransfer {
      T.NothingFoundNothingSkipped(f.spec, w, t, n, T.ConditionsFor(j, T.Find(t, n)));
      LookThen(c, s, i, f, P.Skip);
    } else {
      var size := answer.state.size;
      StoreIsAttempt(c, tag, s, i, f, t, T.Upload(j, answer.state, answer.body, w), T.IsLarge(j, size), size, w);
    }
  }

  // ----- attempts that keep to the version of the source -----

  predicate Plain(m: P.WorkerMove) {
    !m.Skip? && !m.Upload?
  }

  lemma {:induction false} PlainMovesFit(c: P.Config, fit: M.Fit, s: P.State, i: nat, moves: seq<P.WorkerMove>)
    requires P.Runs(c, s, By(i, moves)) && forall m | m in moves :: Plain(m)
    ensures M.FitRun(c, fit, s, By(i, moves))
    decreases |moves|
  {
    if moves == [] {
    } else {
      assert By(i, moves)[0] == P.ByWorker(i, moves[0]) && By(i, moves)[1..] == By(i, moves[1..]);
      assert moves[0] in moves;
      PlainMovesFit(c, fit, P.After(c, s, P.ByWorker(i, moves[0])), i, moves[1..]);
    }
  }

  /** Skipping what has the version of the source, or uploading that version. */
  predicate IsCurrent(c: P.Config, s: P.State, f: File, m: P.WorkerMove) {
    (m.Skip? && P.Found(s.target, c.name(f)) == Some(c.version(f))) || (m.Upload? && m.version == c.version(f))
  }

  lemma CurrentFits(c: P.Config, s: P.State, i: nat, f: File, m: P.WorkerMove)
    requires i < |s.workers| && s.workers[i].phase == P.Trying(f)
    requires P.Runs(c, s, By(i, [P.Look, m])) && IsCurrent(c, s, f, m)
    ensures M.FitRun(c, M.SourceVersion(c), s, By(i, [P.Look, m]))
  {
    var fit, steps := M.SourceVersion(c), By(i, [P.Look, m]);
    var s1, rest := P.After(c, s, steps[0]), steps[1..];
    assert steps[0] == P.ByWorker(i, P.Look) && rest[0] == P.ByWorker(i, m) && rest[1..] == [];
    assert s1.workers[i].phase == P.Looked(f, P.Found(s.target, c.name(f)));
    assert M.FitStep(fit, s1, rest[0]);
    assert M.FitRun(c, fit, P.After(c, s1, rest[0]), rest[1..]);
    assert M.FitRun(c, fit, s1, rest);
    assert M.FitStep(fit, s, steps[0]);
  }

  /** The version of a regular object is the Etag of its source, and that of a symlink is where it leads to. */
  ghost predicate TagsByEtag(tag: Tag) {
    && (forall a: T.Stored :: a.symlink.None? ==> tag(a) == a.sourceEtag)
    && (forall a: T.Stored, b: T.Stored :: a.symlink.Some? && a.symlink == b.symlink ==> tag(a) == tag(b))
  }

  /**
   * A regular file of a source with Etags, on a target side that has noted them and where
   * only regular objects have validators of the source.
   */
  ghost predicate Validated(j: T.Job, f: FileSpec, w: T.World, t: T.Contents, r: T.Resource) {
    var n := j.target.ObjectAtPath(f.path);
    && T.Provides(w, f, r) && !j.simplistic && r.etag != ""
    && (n in t && t[n].sourceEtag == "" ==> t[n].sourceLastModified == "")
    && (n in t && t[n].symlink.Some? ==> t[n].sourceEtag == "")
  }

  /** A symlink, or such a file, in the version that the source has. */
  ghost predicate Exact(c: P.Config, tag: Tag, f: File, j: T.Job, w: T.World, t: T.Contents, r: T.Resource) {
    var link := T.LinkOf(j, f.spec, w);
    TagsByEtag(tag) &&
    if link != "" then c.version(f) == tag(LinkTo(j.target.ObjectAtPath(link), w))
    else Validated(j, f.spec, w, t, r) && c.version(f) == r.etag
  }

  lemma SkipsIfSame(j: T.Job, f: FileSpec, w: T.World, t: T.Contents, r: T.Resource)
    requires Validated(j, f, w, t, r)
    ensures var n, answer := j.target.ObjectAtPath(f.path), AnswerFor(j, f, w, t);
      && answer.Got? && (answer.state.skipTransfer <==> n in t && t[n].sourceEtag == r.etag)
      && (!answer.state.skipTransfer ==> answer.state.etag == r.etag)
  {
    if f.contents.None? {
      T.Asked(w, f, r, T.ConditionsFor(j, T.Find(t, j.target.ObjectAtPath(f.path))));
    }
  }

  lemma ExactMoves(c: P.Config, tag: Tag, s: P.State, f: File, j: T.Job, w: T.World, t: T.Contents, r: T.Resource)
    requires Represents(c, f, j) && Exact(c, tag, f, j, w, t, r) && s.target == View(tag, t)
    ensures var moves := Moves(tag, j, f.spec, w, t);
      || (|moves| == 2 && moves == [P.Look, moves[1]] && IsCurrent(c, s, f, moves[1]))
      || forall m | m in moves :: Plain(m)
  {
    var link := T.LinkOf(j, f.spec, w);
    if link == "" {
      SkipsIfSame(j, f.spec, w, t, r);
    } else {
      var stored := LinkTo(j.target.ObjectAtPath(link), w);
      assert c.name(f) in t && t[c.name(f)].symlink == stored.symlink ==> tag(t[c.name(f)]) == tag(stored);
    }
  }

  /**
   * Symlinks, and regular files of a source with Etags that does not change meanwhile, are
   * only skipped or uploaded in the version of the source.
   */
  lemma ExactAttemptsFit(c: P.Config, tag: Tag, s: P.State, i: nat, f: File, j: T.Job, w: T.World, t: T.Contents,
                         r: T.Resource)
    requires Begins(c, tag, s, i, f, t) && Represents(c, f, j) && Exact(c, tag, f, j, w, t, r)
    requires P.Runs(c, s, By(i, Moves(tag, j, f.spec, w, t)))
    ensures M.FitRun(c, M.SourceVersion(c), s, By(i, Moves(tag, j, f.spec, w, t)))
  {
    var moves := Moves(tag, j, f.spec, w, t);
    ExactMoves(c, tag, s, f, j, w, t, r);
    if forall m | m in moves :: Plain(m) {
      PlainMovesFit(c, M.SourceVersion(c), s, i, moves);
    } else {
      CurrentFits(c, s, i, f, moves[1]);
    }
  }
}
