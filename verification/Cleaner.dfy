/** The cleaner as the source has it: loops that fill maps, and a loop over the jobs. */
module Cleaners {
  import opened Base
  import opened Objects
  import opened Cleanup

  /** A bulk delete that has been requested. */
  datatype Request = Request(job: JobId, objects: set<ObjectName>)

  type RequestOf = JobId -> Request

  /** What is requested for a job. */
  function RequestFor(name: Names, existing: JobId -> set<ObjectName>, infos: seq<Info>): RequestOf {
    (job: JobId) => Request(job, existing(job) - TransferredIn(name, infos, job))
  }

  /** The requests for those of the jobs that are to be cleaned up, in the given order. */
  function Requests(all: set<JobId>, request: RequestOf, order: seq<JobId>): seq<Request> {
    if order == [] then [] else
    var front, job := order[..|order| - 1], order[|order| - 1];
    Requests(all, request, front) + if job in all then [request(job)] else []
  }

  predicate Distinct(order: seq<JobId>) {
    forall i, j | 0 <= i < j < |order| :: order[i] != order[j]
  }

  /** There is one request for each of these jobs, and no other. */
  lemma {:induction false} RequestsAreThose(all: set<JobId>, request: RequestOf, order: seq<JobId>)
    requires Distinct(order) && forall job :: request(job).job == job
    ensures var requests := Requests(all, request, order);
      && (forall r | r in requests :: r.job in order && r.job in all && r == request(r.job))
      && (forall job | job in order && job in all :: request(job) in requests)
      && (forall i, j | 0 <= i < j < |requests| :: requests[i].job != requests[j].job)
      && |requests| <= |order|
    decreases order
  {
    if order == [] {
    } else {
      var front, job := order[..|order| - 1], order[|order| - 1];
      assert order == front + [job];
      RequestsAreThose(all, request, front);
      var before, after := Requests(all, request, front), Requests(all, request, order);
      assert job !in front;
      assert forall i | 0 <= i < |before| :: before[i] in before && after[i] == before[i];
      assert job in all ==> after[|before|] == request(job) && request(job) in after;
    }
  }

  /** What the bulk delete returns is reported for each request, but nothing below zero. */
  ghost predicate Reported(requests: seq<Request>, report: seq<ReportEvent>, numDeleted: set<ObjectName> -> int) {
    && |report| == |requests|
    && forall i | 0 <= i < |requests| :: report[i] == CleanupEvent(AtLeastZero(numDeleted(requests[i].objects)))
  }

  /** `util.AtLeastZero` */
  function AtLeastZero(n: int): (r: nat)
    ensures n <= r && (r == n || r == 0)
  {
    if n < 0 then 0 else n
  }

  class Cleaner {
    const strategy: Strategies
    const name: Names
    /** `FileExists` of the target of each job. */
    const existing: JobId -> set<ObjectName>
    var isJobFailed: set<JobId>
    var isFileTransferred: map<JobId, set<ObjectName>>
    var requests: seq<Request>
    var report: seq<ReportEvent>

    constructor (strategy: Strategies, name: Names, existing: JobId -> set<ObjectName>)
      ensures this.strategy == strategy && this.name == name && this.existing == existing
      ensures isJobFailed == {} && isFileTransferred == map[] && requests == [] && report == []
    {
      this.strategy, this.name, this.existing := strategy, name, existing;
      isJobFailed, isFileTransferred, requests, report := {}, map[], [], [];
    }

    /** The maps say what is true of the files heard of so far. */
    ghost predicate Knows(infos: seq<Info>)
      reads this
    {
      && isJobFailed == FailedIn(strategy, infos, {})
      && isFileTransferred.Keys == JobsIn(strategy, infos)
      && forall job | job in isFileTransferred :: isFileTransferred[job] == TransferredIn(name, infos, job)
    }

    /** The body of the first loop of `Run`. */
    method Collect(info: Info, ghost infos: seq<Info>)
      requires Knows(infos)
      modifies this`isJobFailed, this`isFileTransferred
      ensures Knows(infos + [info])
    {
      Snoc(strategy, name, infos, info);
      var job := info.file.job;
      if strategy(job).KeepUnknownFiles? {
        return;
      }
      if info.failed {
        isJobFailed := isJobFailed + {job};
      }
      var m := if job in isFileTransferred then isFileTransferred[job] else {};
      if job !in isFileTransferred {
        NotHeardOf(strategy, name, infos, job);
      }
      isFileTransferred := isFileTransferred[job := m + {name(info.file)}];
    }

    /** `performCleanup`; `numDeleted` is what the bulk delete returns for a set of objects. */
    method PerformCleanup(job: JobId, transferred: set<ObjectName>, numDeleted: set<ObjectName> -> int)
      modifies this`requests, this`report
      ensures var r := Request(job, existing(job) - transferred);
        if strategy(job).DeleteUnknownFiles? then
          && requests == old(requests) + [r]
          && report == old(report) + [CleanupEvent(AtLeastZero(numDeleted(r.objects)))]
        else requests == old(requests) && report == old(report)
    {
      var objs, left := {}, existing(job);
      while left != {}
        invariant left <= existing(job) && objs == existing(job) - left - transferred
        decreases left
      {
        var objectName :| objectName in left;
        left := left - {objectName};
        if objectName !in transferred {
          objs := objs + {objectName};
        }
      }
      assert objs == existing(job) - transferred;
      if strategy(job).DeleteUnknownFiles? {
        var n := numDeleted(objs);
        if n < 0 {
          n := 0;
        }
        requests := requests + [Request(job, objs)];
        report := report + [CleanupEvent(n)];
      }
    }

    /**
     * `Cleaner.Run` over everything that comes through its channel. `interruptAt` says
     * when the context is found done: 0 for the check after the first loop, 1 for the one
     * before the first job, and so on. `order` are the jobs that the last loop comes to.
     */
    method Run(input: seq<Info>, incomplete: set<JobId>, interruptAt: Option<nat>, numDeleted: set<ObjectName> -> int)
      returns (ghost order: seq<JobId>)
      requires isJobFailed == {} && isFileTransferred == map[] && requests == [] && report == []
      modifies this
      ensures Distinct(order) && forall job | job in order :: job in JobsIn(strategy, input)
      ensures requests == Requests(ToCleanUp(strategy, input, incomplete), RequestFor(name, existing, input), order)
      ensures Reported(requests, report, numDeleted)
      ensures interruptAt.None? ==> forall job | job in JobsIn(strategy, input) :: job in order
      ensures interruptAt.Some? ==>
        |order| == if interruptAt.value == 0 then 0 else Min(interruptAt.value - 1, |JobsIn(strategy, input)|)
      ensures interruptAt.Some? && interruptAt.value > 0 ==> |requests| <= interruptAt.value - 1
    {
      for i := 0 to |input|
        invariant Knows(input[..i]) && requests == [] && report == []
      {
        Collect(input[i], input[..i]);
        assert input[..i] + [input[i]] == input[..i + 1];
      }
      assert input[..|input|] == input;
      order := [];
      if interruptAt.Some? && interruptAt.value == 0 {
        return;
      }
      isJobFailed := isJobFailed + (isFileTransferred.Keys * incomplete);
      assert isJobFailed == FailedIn(strategy, input, incomplete);
      ghost var all := ToCleanUp(strategy, input, incomplete);
      order := CleanUp(interruptAt, numDeleted, all, RequestFor(name, existing, input));
      RequestsAreThose(all, RequestFor(name, existing, input), order);
    }

    /** What the last loop should do for a job. */
    ghost predicate Planned(all: set<JobId>, request: RequestOf, job: JobId)
      requires job in isFileTransferred
      reads this
    {
      && (job in all <==> job !in isJobFailed && strategy(job).DeleteUnknownFiles?)
      && request(job) == Request(job, existing(job) - isFileTransferred[job])
    }

    /** The body of the last loop of `Run`. */
    method CleanJob(job: JobId, numDeleted: set<ObjectName> -> int, ghost all: set<JobId>, ghost request: RequestOf)
      requires job in isFileTransferred && Planned(all, request, job) && Reported(requests, report, numDeleted)
      modifies this`requests, this`report
      ensures requests == old(requests) + if job in all then [request(job)] else []
      ensures Reported(requests, report, numDeleted)
    {
      if job !in isJobFailed {
        PerformCleanup(job, isFileTransferred[job], numDeleted);
      }
    }

    /** The last loop of `Run`; `all` are the jobs to clean up, and `request` is what is to be requested. */
    method CleanUp(interruptAt: Option<nat>, numDeleted: set<ObjectName> -> int, ghost all: set<JobId>,
                   ghost request: RequestOf)
      returns (ghost order: seq<JobId>)
      requires forall job | job in isFileTransferred :: Planned(all, request, job)
      requires requests == [] && report == [] && interruptAt != Some(0)
      modifies this`requests, this`report
      ensures Distinct(order) && forall job | job in order :: job in isFileTransferred
      ensures requests == Requests(all, request, order) && Reported(requests, report, numDeleted)
      ensures interruptAt.None? ==> forall job | job in isFileTransferred :: job in order
      ensures interruptAt.Some? ==> |order| == Min(interruptAt.value - 1, |isFileTransferred.Keys|)
    {
      var jobs, iteration := isFileTransferred.Keys, 1;
      order := [];
      while jobs != {}
        invariant Distinct(order) && |order| == iteration - 1 && |order| + |jobs| == |isFileTransferred.Keys|
        invariant forall job :: job in isFileTransferred <==> job in order || job in jobs
        invariant forall job | job in order :: job !in jobs
        invariant forall job | job in isFileTransferred :: Planned(all, request, job)
        invariant interruptAt.Some? ==> iteration <= interruptAt.value
        invariant requests == Requests(all, request, order) && Reported(requests, report, numDeleted)
        decreases jobs
      {
        if interruptAt.Some? && interruptAt.value == iteration {
          return;
        }
        var job :| job in jobs;
        CleanJob(job, numDeleted, all, request);
        assert (order + [job])[..|order|] == order;
        jobs := jobs - {job};
        order := order + [job];
        iteration := iteration + 1;
      }
    }
  }

  lemma Snoc(strategy: Strategies, name: Names, infos: seq<Info>, i: Info)
    ensures var kept, job := strategy(i.file.job).KeepUnknownFiles?, i.file.job;
      && JobsIn(strategy, infos + [i]) == JobsIn(strategy, infos) + (if kept then {} else {job})
      && FailedIn(strategy, infos + [i], {})
          == FailedIn(strategy, infos, {}) + (if kept || !i.failed then {} else {job})
    ensures forall job ::
      TransferredIn(name, infos + [i], job)
        == TransferredIn(name, infos, job) + (if i.file.job == job then {name(i.file)} else {})
  {
  }

  lemma NotHeardOf(strategy: Strategies, name: Names, infos: seq<Info>, job: JobId)
    requires !strategy(job).KeepUnknownFiles? && job !in JobsIn(strategy, infos)
    ensures TransferredIn(name, infos, job) == {}
  {
  }
}
