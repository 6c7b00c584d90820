/** The order of the walk, and what becomes of every directory. */
module ScrapeOrder {
  import opened Base
  import opened Objects
  import opened Scraping

  // ----- job order -----

  /** Without failed listings, the walk takes the directories in the order of the stack. */
  lemma {:induction false} WalkInStackOrder(visit: Visitor, rank: Rank, stack: seq<Directory>)
    requires Finite(visit, rank)
    requires forall v | v in SubwalkAll(visit, rank, stack) :: !v.ending.Postponed?
    ensures Walk(visit, rank, stack) == SubwalkAll(visit, rank, stack)
    decreases |SubwalkAll(visit, rank, stack)|
  {
    if stack == [] {
    } else {
      IterationLeaves(visit, rank, stack);
      var v := visit(stack[|stack| - 1]);
      SubwalkUnfolds(visit, rank, stack[|stack| - 1]);
      assert v in SubwalkAll(visit, rank, stack);
      WalkInStackOrder(visit, rank, After(visit, stack));
    }
  }

  /** The visits of one job after the other, beginning with job `from`. */
  ghost function JobByJob(visit: Visitor, rank: Rank, from: nat, jobs: nat): seq<Visit>
    requires Finite(visit, rank) && from <= jobs
    decreases jobs - from
  {
    if from == jobs then [] else Subwalk(visit, rank, Directory(from, "/", 0)) + JobByJob(visit, rank, from + 1, jobs)
  }

  lemma {:induction false} RootsAreJobByJob(visit: Visitor, rank: Rank, from: nat, jobs: nat)
    requires Finite(visit, rank) && from <= jobs
    ensures SubwalkAll(visit, rank, Roots(from, jobs)) == JobByJob(visit, rank, from, jobs)
    decreases jobs - from
  {
    if from == jobs {
    } else {
      SubwalkAllConcat(visit, rank, Roots(from + 1, jobs), [Directory(from, "/", 0)]);
      SubwalkOfOne(visit, rank, Directory(from, "/", 0));
      RootsAreJobByJob(visit, rank, from + 1, jobs);
    }
  }

  /** Job order: without failed listings, everything of a job comes before anything of the next one. */
  lemma JobsInOrder(visit: Visitor, rank: Rank, jobs: nat)
    requires Finite(visit, rank)
    requires forall v | v in JobByJob(visit, rank, 0, jobs) :: !v.ending.Postponed?
    ensures Walk(visit, rank, Roots(0, jobs)) == JobByJob(visit, rank, 0, jobs)
  {
    RootsAreJobByJob(visit, rank, 0, jobs);
    WalkInStackOrder(visit, rank, Roots(0, jobs));
  }

  // ----- rounds -----

  /** The visits of a directory and of what it pushes, without later attempts. */
  ghost function Fresh(visit: Visitor, rank: Rank, d: Directory): (visits: seq<Visit>)
    requires Finite(visit, rank)
    ensures |visits| > 0
    decreases rank(d.job, d.path), 1, 0
  {
    assert FiniteAt(visit(d), d, rank);
    [visit(d)] + FreshAll(visit, rank, visit(d).pushed)
  }

  ghost function FreshAll(visit: Visitor, rank: Rank, stack: seq<Directory>): seq<Visit>
    requires Finite(visit, rank)
    decreases Bound(rank, stack), 0, |stack|
  {
    if stack == [] then [] else
    Fresh(visit, rank, stack[|stack| - 1]) + FreshAll(visit, rank, stack[..|stack| - 1])
  }

  /** The attempts that those visits postpone; the first one to fail comes last, on top of the stack. */
  ghost function Late(visit: Visitor, rank: Rank, d: Directory): seq<Directory>
    requires Finite(visit, rank)
    decreases rank(d.job, d.path), 1, 0
  {
    assert FiniteAt(visit(d), d, rank);
    LateAll(visit, rank, visit(d).pushed) + visit(d).Again()
  }

  ghost function LateAll(visit: Visitor, rank: Rank, stack: seq<Directory>): seq<Directory>
    requires Finite(visit, rank)
    decreases Bound(rank, stack), 0, |stack|
  {
    if stack == [] then [] else
    LateAll(visit, rank, stack[..|stack| - 1]) + Late(visit, rank, stack[|stack| - 1])
  }

  lemma {:induction false} FreshConcat(visit: Visitor, rank: Rank, a: seq<Directory>, b: seq<Directory>)
    requires Finite(visit, rank)
    ensures FreshAll(visit, rank, a + b) == FreshAll(visit, rank, b) + FreshAll(visit, rank, a)
    decreases b
  {
    if b == [] {
      assert a + b == a;
    } else {
      assert (a + b)[..|a + b| - 1] == a + b[..|b| - 1];
      FreshConcat(visit, rank, a, b[..|b| - 1]);
      Assoc(Fresh(visit, rank, b[|b| - 1]), FreshAll(visit, rank, b[..|b| - 1]), FreshAll(visit, rank, a));
    }
  }

  lemma {:induction false} LateConcat(visit: Visitor, rank: Rank, a: seq<Directory>, b: seq<Directory>)
    requires Finite(visit, rank)
    ensures LateAll(visit, rank, a + b) == LateAll(visit, rank, a) + LateAll(visit, rank, b)
    decreases b
  {
    if b == [] {
      assert a + b == a;
    } else {
      assert (a + b)[..|a + b| - 1] == a + b[..|b| - 1];
      LateConcat(visit, rank, a, b[..|b| - 1]);
      Assoc(LateAll(visit, rank, a), LateAll(visit, rank, b[..|b| - 1]), Late(visit, rank, b[|b| - 1]));
    }
  }

  /** One iteration within a round. */
  lemma RoundUnfolds(visit: Visitor, rank: Rank, stack: seq<Directory>)
    requires Finite(visit, rank) && stack != []
    ensures var v, front := visit(stack[|stack| - 1]), stack[..|stack| - 1];
      && FreshAll(visit, rank, stack) == [v] + FreshAll(visit, rank, front + v.pushed)
      && LateAll(visit, rank, stack) == LateAll(visit, rank, front + v.pushed) + v.Again()
  {
    var v, front := visit(stack[|stack| - 1]), stack[..|stack| - 1];
    FreshConcat(visit, rank, front, v.pushed);
    Assoc([v], FreshAll(visit, rank, v.pushed), FreshAll(visit, rank, front));
    LateConcat(visit, rank, front, v.pushed);
    Assoc(LateAll(visit, rank, front), LateAll(visit, rank, v.pushed), v.Again());
  }

  /**
   * Retry order: whatever lies below in the stack, the walk first makes the visits of the
   * upper part and of what that pushes, then turns to what is below, and only then to
   * what has failed meanwhile, in the order in which it failed.
   */
  lemma {:induction false} PostponedComeLast(visit: Visitor, rank: Rank, below: seq<Directory>, stack: seq<Directory>)
    requires Finite(visit, rank)
    ensures Walk(visit, rank, below + stack)
      == FreshAll(visit, rank, stack) + Walk(visit, rank, LateAll(visit, rank, stack) + below)
    decreases |FreshAll(visit, rank, stack)|
  {
    if stack == [] {
      assert below + stack == below == [] + below;
    } else {
      var front, v := stack[..|stack| - 1], visit(stack[|stack| - 1]);
      RoundUnfolds(visit, rank, stack);
      PostponedComeLast(visit, rank, v.Again() + below, front + v.pushed);
      WalkUnfolds(visit, rank, below + stack);
      assert (below + stack)[..|below + stack| - 1] == below + front;
      Assoc(v.Again(), below, front + v.pushed);
      Assoc(below, front, v.pushed);
      var late := LateAll(visit, rank, front + v.pushed);
      Assoc(late, v.Again(), below);
      Assoc([v], FreshAll(visit, rank, front + v.pushed), Walk(visit, rank, late + (v.Again() + below)));
    }
  }

  // ----- every directory ends once -----

  /** The directories visited, pushed and postponed. */
  function Visited(visits: seq<Visit>): multiset<Directory> {
    if visits == [] then multiset{} else multiset{visits[0].dir} + Visited(visits[1..])
  }

  function Pushed(visits: seq<Visit>): multiset<Directory> {
    if visits == [] then multiset{} else multiset(visits[0].pushed) + Pushed(visits[1..])
  }

  function Retried(visits: seq<Visit>): multiset<Directory> {
    if visits == [] then multiset{} else multiset(visits[0].Again()) + Retried(visits[1..])
  }

  /** The visited directories are, each exactly once, the initial ones, the pushed ones and the postponed ones. */
  predicate Balanced(stack: seq<Directory>, walk: seq<Visit>) {
    Visited(walk) == multiset(stack) + Pushed(walk) + Retried(walk)
  }

  lemma {:induction false} VisitsBalance(visit: Visitor, rank: Rank, stack: seq<Directory>)
    requires Finite(visit, rank)
    ensures Balanced(stack, Walk(visit, rank, stack))
    decreases |SubwalkAll(visit, rank, stack)|
  {
    if stack == [] {
    } else {
      var d, front := stack[|stack| - 1], stack[..|stack| - 1];
      assert stack == front + [d] && FiniteAt(visit(d), d, rank);
      WalkUnfolds(visit, rank, stack);
      VisitsBalance(visit, rank, After(visit, stack));
      BalanceStep(front, visit(d), Walk(visit, rank, After(visit, stack)));
    }
  }

  lemma BalanceStep(front: seq<Directory>, v: Visit, rest: seq<Visit>)
    requires Balanced(v.Again() + (front + v.pushed), rest)
    ensures Balanced(front + [v.dir], [v] + rest)
  {
    assert ([v] + rest)[1..] == rest;
    assert multiset(v.Again() + (front + v.pushed)) == multiset(v.Again()) + multiset(front) + multiset(v.pushed);
  }

  // ----- one directory -----

  function Is(d: Directory, job: JobId, path: string): nat {
    if d.job == job && d.path == path then 1 else 0
  }

  /** How often a directory stands in a stack, and how many attempts are still possible for it. */
  function Occurs(ds: seq<Directory>, job: JobId, path: string): nat {
    if ds == [] then 0 else Is(ds[0], job, path) + Occurs(ds[1..], job, path)
  }

  function Chances(ds: seq<Directory>, job: JobId, path: string): nat {
    if ds == [] then 0
    else (if Is(ds[0], job, path) == 1 then RetriesLeft(ds[0]) else 0) + Chances(ds[1..], job, path)
  }

  /** How often visits find it, try it, and come to a final outcome for it. */
  function Finds(visits: seq<Visit>, job: JobId, path: string): nat {
    if visits == [] then 0 else Occurs(visits[0].pushed, job, path) + Finds(visits[1..], job, path)
  }

  function Tries(visits: seq<Visit>, job: JobId, path: string): nat {
    if visits == [] then 0 else Is(visits[0].dir, job, path) + Tries(visits[1..], job, path)
  }

  function Ends(visits: seq<Visit>, job: JobId, path: string): nat {
    if visits == [] then 0
    else (if visits[0].ending.Postponed? then 0 else Is(visits[0].dir, job, path)) + Ends(visits[1..], job, path)
  }

  lemma {:induction false} OccursConcat(a: seq<Directory>, b: seq<Directory>, job: JobId, path: string)
    ensures Occurs(a + b, job, path) == Occurs(a, job, path) + Occurs(b, job, path)
    ensures Chances(a + b, job, path) == Chances(a, job, path) + Chances(b, job, path)
    decreases a
  {
    if a == [] {
      assert a + b == b;
    } else {
      assert (a + b)[1..] == a[1..] + b;
      OccursConcat(a[1..], b, job, path);
    }
  }

  lemma {:induction false} FreshChances(ds: seq<Directory>, job: JobId, path: string)
    requires forall d | d in ds :: d.retryCounter == 0
    ensures Chances(ds, job, path) == (1 + MAX_RETRY) * Occurs(ds, job, path)
    decreases ds
  {
    if ds == [] {
    } else {
      FreshChances(ds[1..], job, path);
    }
  }

  /** What one iteration does to the stack, as to one directory. */
  lemma IterationCounts(v: Visit, front: seq<Directory>, job: JobId, path: string)
    requires v.ending.Postponed? ==> v.dir.retryCounter < MAX_RETRY
    requires forall c | c in v.pushed :: c.retryCounter == 0
    ensures var before, after := front + [v.dir], v.Again() + (front + v.pushed);
      && Occurs(after, job, path) + (if v.ending.Postponed? then 0 else Is(v.dir, job, path))
         == Occurs(before, job, path) + Occurs(v.pushed, job, path)
      && Chances(after, job, path) + Is(v.dir, job, path)
         <= Chances(before, job, path) + (1 + MAX_RETRY) * Occurs(v.pushed, job, path)
  {
    OccursConcat(front, [v.dir], job, path);
    OccursConcat(front, v.pushed, job, path);
    OccursConcat(v.Again(), front + v.pushed, job, path);
    FreshChances(v.pushed, job, path);
    assert [v.dir][1..] == [];
    if v.ending.Postponed? {
      assert v.Again()[1..] == [];
    }
  }

  /** The accounts of one directory over the whole walk. */
  lemma {:induction false} WalkCounts(visit: Visitor, rank: Rank, stack: seq<Directory>, job: JobId, path: string)
    requires Finite(visit, rank)
    ensures var walk := Walk(visit, rank, stack);
      && Ends(walk, job, path) == Occurs(stack, job, path) + Finds(walk, job, path)
      && Tries(walk, job, path) <= Chances(stack, job, path) + (1 + MAX_RETRY) * Finds(walk, job, path)
    decreases |SubwalkAll(visit, rank, stack)|
  {
    if stack == [] {
    } else {
      var d, front := stack[|stack| - 1], stack[..|stack| - 1];
      var v, rest := visit(d), Walk(visit, rank, After(visit, stack));
      assert stack == front + [d] && FiniteAt(v, d, rank);
      WalkUnfolds(visit, rank, stack);
      WalkCounts(visit, rank, After(visit, stack), job, path);
      IterationCounts(v, front, job, path);
      assert ([v] + rest)[1..] == rest;
    }
  }

  /**
   * Every directory, as often as it is on the stack at the beginning or is found later,
   * comes to exactly one final outcome (success, failure or a skipped job), after at most
   * three attempts.
   */
  lemma EveryDirectoryEndsOnce(visit: Visitor, rank: Rank, stack: seq<Directory>, job: JobId, path: string)
    requires Finite(visit, rank) && forall d | d in stack :: d.retryCounter == 0
    ensures var walk := Walk(visit, rank, stack);
      && Ends(walk, job, path) == Occurs(stack, job, path) + Finds(walk, job, path)
      && Tries(walk, job, path) <= 3 * (Occurs(stack, job, path) + Finds(walk, job, path))
  {
    WalkCounts(visit, rank, stack, job, path);
    FreshChances(stack, job, path);
  }
}
