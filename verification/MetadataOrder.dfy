/** Repository metadata never runs ahead of what it refers to. */
module MetadataOrder {
  import opened Base
  import opened Objects
  import opened Scraping
  import opened ScrapeTree
  import S = Scraper
  import P = Pipeline
  import opened PipelineScript
  import opened PipelineMirror
  import opened PipelineOrder
  import opened Mirror
  import Yum

  lemma {:induction false} FilesOfConcat(a: seq<Visit>, b: seq<Visit>)
    ensures S.FilesOf(a + b) == S.FilesOf(a) + S.FilesOf(b)
    decreases b
  {
    if b == [] {
      assert a + b == a;
    } else {
      assert (a + b)[..|a + b| - 1] == a + b[..|b| - 1];
      FilesOfConcat(a, b[..|b| - 1]);
      Assoc(S.FilesOf(a), S.FilesOf(b[..|b| - 1]), b[|b| - 1].files);
    }
  }

  lemma BlockOfPrefix<T>(shorter: seq<T>, longer: seq<T>, a: seq<T>, block: seq<T>, b: seq<T>, k: nat)
    requires shorter <= longer <= a + block + b && k < |block| && |a| + k < |shorter|
    ensures shorter[|a| + k] == longer[|a| + k] == block[k]
  {
    assert (a + block + b)[|a| + k] == block[k];
  }

  /** What has been sent is the beginning of what the iterations find. */
  lemma SentIsPrefix(c: P.Config, steps: seq<P.Step>, visits: seq<Visit>)
    requires P.Runs(c, P.Start(c), steps) && c.script == ScriptOf(visits)
    ensures P.End(c, P.Start(c), steps).history.sent <= S.FilesOf(visits)
  {
    WholeScript(c, steps);
    ScriptDoes(visits);
  }

  lemma FilesAround(before: seq<Visit>, v: Visit, after: seq<Visit>)
    ensures S.FilesOf(before + [v] + after) == S.FilesOf(before) + v.files + S.FilesOf(after)
  {
    FilesOfConcat(before + [v], after);
    S.Snoc(before, v);
  }

  /**
   * With one transferor and no failed attempt: when a file that an iteration of the scraper
   * has found is tried, the files that this iteration has found before are on the target
   * side, in the version that the source has.
   */
  lemma VisitArrivesInOrder(c: P.Config, fit: Fit, steps: seq<P.Step>, before: seq<Visit>, v: Visit, after: seq<Visit>,
                            k: nat, earlier: nat)
    requires c.workers == 1 && Separate(c) && Suits(c, fit)
    requires P.Runs(c, P.Start(c), steps) && FitRun(c, fit, P.Start(c), steps) && Undisturbed(steps)
    requires c.script == ScriptOf(before + [v] + after) && earlier < k < |v.files|
    requires |S.FilesOf(before)| + k < |P.End(c, P.Start(c), steps).history.tried|
    ensures var s := P.End(c, P.Start(c), steps);
      && s.history.tried[|S.FilesOf(before)| + k] == v.files[k]
      && Good(c, fit, s.target, v.files[earlier])
  {
    var h, offset := P.End(c, P.Start(c), steps).history, |S.FilesOf(before)|;
    InOrder(c, fit, steps, offset + k, offset + earlier);
    SentIsPrefix(c, steps, before + [v] + after);
    FilesAround(before, v, after);
    BlockOfPrefix(h.tried, h.sent, S.FilesOf(before), v.files, S.FilesOf(after), k);
    BlockOfPrefix(h.tried, h.sent, S.FilesOf(before), v.files, S.FilesOf(after), earlier);
  }

  lemma {:induction false} IndexIn(admits: Filter, job: JobId, entries: seq<FileSpec>, e: FileSpec) returns (i: nat)
    requires e in entries && !e.isDirectory && admits(e)
    ensures i < |FilesIn(admits, job, entries)| && FilesIn(admits, job, entries)[i] == File(job, e)
    decreases entries
  {
    if e == entries[0] {
      i := 0;
    } else {
      i := IndexIn(admits, job, entries[1..], e);
      if !entries[0].isDirectory && admits(entries[0]) {
        i := i + 1;
      }
    }
  }

  /** The last entry becomes the last file. */
  lemma LastInFiles(admits: Filter, job: JobId, front: seq<FileSpec>, last: FileSpec)
    requires !last.isDirectory && admits(last)
    ensures FilesIn(admits, job, front + [last]) == FilesIn(admits, job, front) + [File(job, last)]
  {
    FilesInConcat(admits, job, front, [last]);
    assert [last][1..] == [];
  }

  /**
   * When the last entry of a listing is tried, with one transferor and no failed attempt,
   * every other admitted entry is on the target side.
   */
  lemma LastArrivesLast(c: P.Config, fit: Fit, steps: seq<P.Step>, before: seq<Visit>, v: Visit, after: seq<Visit>,
                        admits: Filter, job: JobId, front: seq<FileSpec>, last: FileSpec, e: FileSpec)
    requires c.workers == 1 && Separate(c) && Suits(c, fit)
    requires P.Runs(c, P.Start(c), steps) && FitRun(c, fit, P.Start(c), steps) && Undisturbed(steps)
    requires c.script == ScriptOf(before + [v] + after) && v.files == FilesIn(admits, job, front + [last])
    requires !last.isDirectory && admits(last) && e in front && !e.isDirectory && admits(e)
    requires |S.FilesOf(before)| + |v.files| <= |P.End(c, P.Start(c), steps).history.tried|
    ensures var s := P.End(c, P.Start(c), steps);
      && v.files != [] && s.history.tried[|S.FilesOf(before)| + |v.files| - 1] == File(job, last)
      && Good(c, fit, s.target, File(job, e))
  {
    LastInFiles(admits, job, front, last);
    var i := IndexIn(admits, job, front, e);
    var k := |v.files| - 1;
    assert v.files[i] == File(job, e) && v.files[k] == File(job, last) && i < k;
    VisitArrivesInOrder(c, fit, steps, before, v, after, k, i);
  }

  /** Packages stand before repomd.xml in the listing of a Yum repository. */
  lemma PackageIsListed(r: Yum.Repository, get: Yum.Get, files: seq<FileSpec>, path: string) returns (e: FileSpec)
    requires Yum.IsListing(r, get, files) && Yum.IsPackage(r, get, path)
    ensures e in files[..|files| - 1] && e.path == path && !e.isDirectory
  {
    var paths, front := Yum.Paths(files), files[..|files| - 1];
    Yum.RepomdComesLast(r, get, paths);
    assert paths[..|paths| - 1] == Yum.Paths(front);
    var i :| 0 <= i < |Yum.Paths(front)| && Yum.Paths(front)[i] == path;
    e := front[i];
    assert e in files;
  }

  /** repomd.xml as a file of the job. */
  function Repomd(job: JobId, r: Yum.Repository, get: Yum.Get): File
    requires Yum.EntriesOf(r, get).Some? && get(Yum.REPOMD, Yum.LastRead(Yum.EntriesOf(r, get).value)).Contents?
  {
    File(job, Yum.Downloaded(Yum.REPOMD, get(Yum.REPOMD, Yum.LastRead(Yum.EntriesOf(r, get).value)).cached))
  }

  /**
   * The metadata of a Yum repository never run ahead of the packages: with one transferor
   * and no failed attempt, when repomd.xml (with the bytes that were read last) is tried
   * after a complete listing, every package that its indices name and that is not excluded
   * is on the target side.
   */
  lemma PackagesArriveFirst(c: P.Config, fit: Fit, steps: seq<P.Step>, w: World, job: JobId, retry: nat,
                            before: seq<Visit>, v: Visit, after: seq<Visit>, r: Yum.Repository, get: Yum.Get,
                            files: seq<FileSpec>, path: string) returns (e: FileSpec)
    requires c.workers == 1 && Separate(c) && Suits(c, fit)
    requires P.Runs(c, P.Start(c), steps) && FitRun(c, fit, P.Start(c), steps) && Undisturbed(steps)
    requires v == VisitOf(w, Directory(job, "/", retry)) && c.script == ScriptOf(before + [v] + after)
    requires w.source(job).listAllFiles(retry) == AllFiles(files, None) && Yum.IsListing(r, get, files)
    requires w.admits(job)(Repomd(job, r, get).spec) && Yum.IsPackage(r, get, path)
    requires forall e | e in files && e.path == path :: w.admits(job)(e)
    requires |S.FilesOf(before)| + |v.files| <= |P.End(c, P.Start(c), steps).history.tried|
    ensures var s := P.End(c, P.Start(c), steps);
      && v.files != [] && s.history.tried[|S.FilesOf(before)| + |v.files| - 1] == Repomd(job, r, get)
      && e in files && e.path == path && Good(c, fit, s.target, File(job, e))
  {
    var front;
    front, e := ListingSplits(job, r, get, files, path);
    FilesOfListing(w, job, retry, files);
    LastArrivesLast(c, fit, steps, before, v, after, w.admits(job), job, front, Repomd(job, r, get).spec, e);
  }

  lemma ListingSplits(job: JobId, r: Yum.Repository, get: Yum.Get, files: seq<FileSpec>, path: string)
    returns (front: seq<FileSpec>, e: FileSpec)
    requires Yum.IsListing(r, get, files) && Yum.IsPackage(r, get, path)
    ensures files == front + [Repomd(job, r, get).spec] && !Repomd(job, r, get).spec.isDirectory
    ensures e in front && e in files && e.path == path && !e.isDirectory
  {
    front := files[..|files| - 1];
    e := PackageIsListed(r, get, files, path);
    assert files == front + [files[|files| - 1]] && e in files;
  }

  lemma FilesOfListing(w: World, job: JobId, retry: nat, files: seq<FileSpec>)
    requires w.source(job).listAllFiles(retry) == AllFiles(files, None)
    ensures VisitOf(w, Directory(job, "/", retry)).files == FilesIn(w.admits(job), job, files)
  {
  }
}
