/** What the cleaner concludes from what it has been told about files. */
module Cleanup {
  import opened Objects

  type Strategies = JobId -> CleanupStrategy

  type Names = File -> ObjectName

  /** The jobs that have a cleanup configured and for which there is a file. */
  function JobsIn(strategy: Strategies, infos: seq<Info>): set<JobId> {
    set i | i in infos && !strategy(i.file.job).KeepUnknownFiles? :: i.file.job
  }

  /** Of those, the ones that are not cleaned up: a file has failed, or the scraping was incomplete. */
  function FailedIn(strategy: Strategies, infos: seq<Info>, incomplete: set<JobId>): set<JobId> {
    JobsIn(strategy, infos) * incomplete
      + set i | i in infos && i.failed && !strategy(i.file.job).KeepUnknownFiles? :: i.file.job
  }

  /** The objects that are known for a job. */
  function TransferredIn(name: Names, infos: seq<Info>, job: JobId): set<ObjectName> {
    set i | i in infos && i.file.job == job :: name(i.file)
  }

  /** The jobs that are cleaned up. */
  function ToCleanUp(strategy: Strategies, infos: seq<Info>, incomplete: set<JobId>): set<JobId> {
    set job | job in JobsIn(strategy, infos) - FailedIn(strategy, infos, incomplete)
      && strategy(job).DeleteUnknownFiles?
  }

  /**
   * A job is cleaned up exactly if it deletes unknown files, a file of it has been handed
   * over, none has failed, and its scrape was complete.
   */
  lemma CleanedUpIff(strategy: Strategies, infos: seq<Info>, incomplete: set<JobId>, job: JobId)
    ensures job in ToCleanUp(strategy, infos, incomplete) <==>
      && strategy(job).DeleteUnknownFiles? && job !in incomplete
      && (exists i :: i in infos && i.file.job == job)
      && (forall i | i in infos && i.file.job == job :: !i.failed)
  {
  }
}
