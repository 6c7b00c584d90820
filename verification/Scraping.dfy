/**
 * The scraper's walk over a stack of directories, with listings that fail and are
 * postponed. A source is any function from a directory and its retry counter to a
 * listing.
 */
module Scraping {
  import opened Base
  import opened Objects

  datatype Directory = Directory(job: JobId, path: string, retryCounter: nat)

  /** `gpg` stands for the message that a GPG verification failed. */
  datatype ListError = ListError(gpg: bool)

  /** `ListAllFiles` sends entries, and may fail in the middle. */
  datatype AllFiles = NotSupported | AllFiles(entries: seq<FileSpec>, error: Option<ListError>)

  datatype Listing = Listing(entries: seq<FileSpec>, error: Option<ListError>)

  datatype Source = Source(listAllFiles: nat -> AllFiles, listEntries: (string, nat) -> Listing)

  /** Whether `Matcher.CheckFile` lets an entry pass. */
  type Filter = FileSpec -> bool

  /** The part of the configuration that the scraper uses, by job. */
  datatype World = World(admits: JobId -> Filter, source: JobId -> Source)

  const MAX_RETRY: nat := 2

  /** What an iteration of the scraper sends or writes, in this order. */
  datatype Act =
    | Send(file: File)
    | MarkIncomplete(job: JobId)
    | Tell(event: ReportEvent)

  datatype Ending = Done | JobSkipped | GaveUp | Postponed

  /** The entries that are handled, and the error that remains. */
  function ListDirectory(w: World, d: Directory): Listing {
    var src := w.source(d.job);
    var all := if d.path == "/" then src.listAllFiles(d.retryCounter) else NotSupported;
    if all.AllFiles? then Listing(all.entries, all.error) else
    var l := src.listEntries(d.path, d.retryCounter);
    if l.error.Some? then Listing([], l.error) else l
  }

  function EndingOf(d: Directory, error: Option<ListError>): Ending {
    if error.None? then Done
    else if error.value.gpg then JobSkipped
    else if d.retryCounter >= MAX_RETRY then GaveUp
    else Postponed
  }

  /** The files among the entries that are sent, and the directories that are pushed. */
  function FilesIn(admits: Filter, job: JobId, entries: seq<FileSpec>): seq<File> {
    if entries == [] then [] else
    (if !entries[0].isDirectory && admits(entries[0]) then [File(job, entries[0])] else [])
      + FilesIn(admits, job, entries[1..])
  }

  function DirsIn(admits: Filter, job: JobId, entries: seq<FileSpec>): seq<Directory> {
    if entries == [] then [] else
    (if entries[0].isDirectory && admits(entries[0]) then [Directory(job, entries[0].path, 0)] else [])
      + DirsIn(admits, job, entries[1..])
  }

  function Sends(files: seq<File>): seq<Act> {
    seq(|files|, i requires 0 <= i < |files| => Send(files[i]))
  }

  function Closing(d: Directory, ending: Ending): seq<Act> {
    match ending
    case Done => [Tell(DirectoryEvent(false))]
    case JobSkipped => [MarkIncomplete(d.job), Tell(JobEvent(true))]
    case GaveUp => [MarkIncomplete(d.job), Tell(DirectoryEvent(true))]
    case Postponed => []
  }

  /** One iteration of the main loop. */
  datatype Visit = Visit(dir: Directory, files: seq<File>, pushed: seq<Directory>, ending: Ending) {
    function Acts(): seq<Act> {
      Sends(files) + Closing(dir, ending)
    }

    function Again(): seq<Directory> {
      if ending.Postponed? then [dir.(retryCounter := dir.retryCounter + 1)] else []
    }
  }

  function VisitOf(w: World, d: Directory): Visit {
    var l, admits := ListDirectory(w, d), w.admits(d.job);
    Visit(d, FilesIn(admits, d.job, l.entries), DirsIn(admits, d.job, l.entries), EndingOf(d, l.error))
  }

  lemma {:induction false} DirsComeFromEntries(admits: Filter, job: JobId, entries: seq<FileSpec>)
    ensures forall c | c in DirsIn(admits, job, entries) ::
      c.job == job && c.retryCounter == 0 && exists e :: e in entries && e.isDirectory && e.path == c.path
    decreases entries
  {
    if entries == [] {
    } else {
      DirsComeFromEntries(admits, job, entries[1..]);
    }
  }

  /** What an iteration does with a directory. */
  type Visitor = Directory -> Visit

  /** The stack after an iteration; its last element is the top. */
  function After(visit: Visitor, stack: seq<Directory>): seq<Directory>
    requires stack != []
  {
    var v := visit(stack[|stack| - 1]);
    v.Again() + (stack[..|stack| - 1] + v.pushed)
  }

  /** The root directories of the jobs from `from` on, pushed in reverse: the first job is on top. */
  function Roots(from: nat, jobs: nat): seq<Directory>
    requires from <= jobs
    decreases jobs - from
  {
    if from == jobs then [] else Roots(from + 1, jobs) + [Directory(from, "/", 0)]
  }

  // ----- the shape of the walk -----

  type Rank = (JobId, string) -> nat

  /**
   * The walk is finite: pushed directories have a smaller rank than the one they are
   * found in, and only the first two attempts are postponed.
   */
  ghost predicate Finite(visit: Visitor, rank: Rank) {
    forall d: Directory :: FiniteAt(visit(d), d, rank)
  }

  ghost predicate FiniteAt(v: Visit, d: Directory, rank: Rank) {
    && v.dir == d
    && (forall c | c in v.pushed :: c.retryCounter == 0 && rank(c.job, c.path) < rank(d.job, d.path))
    && (v.ending.Postponed? ==> d.retryCounter < MAX_RETRY)
  }

  function RetriesLeft(d: Directory): nat {
    if d.retryCounter >= MAX_RETRY then 1 else 1 + MAX_RETRY - d.retryCounter
  }

  /** One more than the largest rank. */
  ghost function Bound(rank: Rank, ds: seq<Directory>): (b: nat)
    ensures forall d | d in ds :: rank(d.job, d.path) < b
    ensures b > 0 ==> exists d :: d in ds && b == rank(d.job, d.path) + 1
    decreases ds
  {
    if ds == [] then 0 else
    var b, r := Bound(rank, ds[1..]), rank(ds[0].job, ds[0].path) + 1;
    if r > b then r else b
  }

  /**
   * All visits that a directory causes: its own, those of the directories it pushes
   * (the last one first), and those of its own later attempts.
   */
  ghost function Subwalk(visit: Visitor, rank: Rank, d: Directory): (visits: seq<Visit>)
    requires Finite(visit, rank)
    ensures |visits| > 0
    decreases rank(d.job, d.path), RetriesLeft(d), 0
  {
    var v := visit(d);
    assert FiniteAt(v, d, rank);
    [v] + SubwalkAll(visit, rank, v.pushed)
      + if v.ending.Postponed? then Subwalk(visit, rank, v.Again()[0]) else []
  }

  /** The same for a stack, from the top down. */
  ghost function SubwalkAll(visit: Visitor, rank: Rank, stack: seq<Directory>): seq<Visit>
    requires Finite(visit, rank)
    decreases Bound(rank, stack), 0, |stack|
  {
    if stack == [] then [] else
    Subwalk(visit, rank, stack[|stack| - 1]) + SubwalkAll(visit, rank, stack[..|stack| - 1])
  }

  lemma {:induction false} SubwalkAllConcat(visit: Visitor, rank: Rank, a: seq<Directory>, b: seq<Directory>)
    requires Finite(visit, rank)
    ensures SubwalkAll(visit, rank, a + b) == SubwalkAll(visit, rank, b) + SubwalkAll(visit, rank, a)
    decreases b
  {
    if b == [] {
      assert a + b == a;
    } else {
      var front := b[..|b| - 1];
      assert (a + b)[..|a + b| - 1] == a + front;
      SubwalkAllConcat(visit, rank, a, front);
    }
  }

  lemma SubwalkOfOne(visit: Visitor, rank: Rank, d: Directory)
    requires Finite(visit, rank)
    ensures SubwalkAll(visit, rank, [d]) == Subwalk(visit, rank, d)
  {
    assert [d][..0] == [];
  }

  lemma SubwalkUnfolds(visit: Visitor, rank: Rank, d: Directory)
    requires Finite(visit, rank)
    ensures var v := visit(d);
      Subwalk(visit, rank, d) == [v] + SubwalkAll(visit, rank, v.pushed) + SubwalkAll(visit, rank, v.Again())
  {
    var v := visit(d);
    if v.ending.Postponed? {
      SubwalkOfOne(visit, rank, v.Again()[0]);
    }
  }

  /** What an iteration leaves to do: the same visits, in a possibly different order, but its own. */
  lemma IterationLeaves(visit: Visitor, rank: Rank, stack: seq<Directory>)
    requires Finite(visit, rank) && stack != []
    ensures var v := visit(stack[|stack| - 1]);
      && multiset(SubwalkAll(visit, rank, stack))
          == multiset{v} + multiset(SubwalkAll(visit, rank, After(visit, stack)))
      && (!v.ending.Postponed? ==> SubwalkAll(visit, rank, stack) == [v] + SubwalkAll(visit, rank, After(visit, stack)))
  {
    var d, rest := stack[|stack| - 1], stack[..|stack| - 1];
    var v := visit(d);
    SubwalkUnfolds(visit, rank, d);
    SubwalkAllConcat(visit, rank, v.Again(), rest + v.pushed);
    SubwalkAllConcat(visit, rank, rest, v.pushed);
    Rearranged(v, SubwalkAll(visit, rank, v.pushed), SubwalkAll(visit, rank, v.Again()), SubwalkAll(visit, rank, rest));
    assert v.Again() == [] ==> SubwalkAll(visit, rank, v.Again()) == [];
  }

  lemma Rearranged(v: Visit, pushed: seq<Visit>, again: seq<Visit>, rest: seq<Visit>)
    ensures multiset([v] + pushed + again + rest) == multiset{v} + multiset((pushed + rest) + again)
    ensures again == [] ==> [v] + pushed + again + rest == [v] + ((pushed + rest) + again)
  {
  }

  // ----- the walk -----

  /** The iterations of the main loop, without interruption. */
  ghost function Walk(visit: Visitor, rank: Rank, stack: seq<Directory>): seq<Visit>
    requires Finite(visit, rank)
    decreases |SubwalkAll(visit, rank, stack)|
  {
    if stack == [] then [] else
    IterationLeaves(visit, rank, stack);
    assert |multiset(SubwalkAll(visit, rank, stack))| == 1 + |multiset(SubwalkAll(visit, rank, After(visit, stack)))|;
    [visit(stack[|stack| - 1])] + Walk(visit, rank, After(visit, stack))
  }

  lemma WalkUnfolds(visit: Visitor, rank: Rank, stack: seq<Directory>)
    requires Finite(visit, rank) && stack != []
    ensures Walk(visit, rank, stack) == [visit(stack[|stack| - 1])] + Walk(visit, rank, After(visit, stack))
    ensures |SubwalkAll(visit, rank, After(visit, stack))| < |SubwalkAll(visit, rank, stack)|
  {
    IterationLeaves(visit, rank, stack);
    assert |multiset(SubwalkAll(visit, rank, stack))| == 1 + |multiset(SubwalkAll(visit, rank, After(visit, stack)))|;
  }

  /** However failures are postponed, the walk makes exactly the visits that the directories cause. */
  lemma {:induction false} WalkVisitsEverything(visit: Visitor, rank: Rank, stack: seq<Directory>)
    requires Finite(visit, rank)
    ensures multiset(Walk(visit, rank, stack)) == multiset(SubwalkAll(visit, rank, stack))
    decreases |SubwalkAll(visit, rank, stack)|
  {
    if stack == [] {
    } else {
      WalkUnfolds(visit, rank, stack);
      WalkVisitsEverything(visit, rank, After(visit, stack));
      IterationLeaves(visit, rank, stack);
      var v, rest := visit(stack[|stack| - 1]), Walk(visit, rank, After(visit, stack));
      assert multiset([v] + rest) == multiset{v} + multiset(rest);
    }
  }
}
