/** The transferor as the source has it: everything that its loops do is a path of the transition system. */
module Transferors {
  import opened Base
  import opened Objects
  import opened Pipeline

  /**
   * What happens when a file is tried: `found` or `known` is what the target side has,
   * `version` what is uploaded, `left` and `kept` what failures leave behind.
   */
  datatype Attempt =
    | Unseen
    | HeadFails
    | NotModified(known: Version)
    | GetFails(found: Option<Version>)
    | Uploads(found: Option<Version>, bytes: nat, version: Version)
    | Breaks(found: Option<Version>, left: Option<Version>, kept: Option<Version>)

  /** The result of an attempt, and the bytes that have been transferred. */
  function OutcomeOf(a: Attempt): Outcome {
    match a
    case Unseen => Outcome(Skipped, 0)
    case NotModified(_) => Outcome(Skipped, 0)
    case Uploads(_, bytes, _) => Outcome(Success, bytes)
    case _ => Outcome(Failed, 0)
  }

  /** How attempt number `k` goes, when it is made with this file. */
  type Attempts = (nat, File) -> Attempt

  /** The places of the received files whose first attempt fails, or does not fail. */
  function Places(received: seq<File>, attempt: Attempts, failing: bool): (places: seq<nat>)
    ensures forall i | 0 <= i < |places| :: places[i] < |received|
  {
    if received == [] then [] else
    var k := |received| - 1;
    Places(received[..k], attempt, failing)
      + if OutcomeOf(attempt(k, received[k])).result.Failed? == failing then [k] else []
  }

  /** They are all such places, in increasing order. */
  lemma {:induction false} PlacesAreThose(received: seq<File>, attempt: Attempts, failing: bool, k: nat)
    ensures k in Places(received, attempt, failing) <==>
      k < |received| && OutcomeOf(attempt(k, received[k])).result.Failed? == failing
    decreases received
  {
    if received == [] {
    } else {
      PlacesAreThose(received[..|received| - 1], attempt, failing, k);
    }
  }

  lemma {:induction false} PlacesIncrease(received: seq<File>, attempt: Attempts, failing: bool, i: nat, j: nat)
    requires i < j < |Places(received, attempt, failing)|
    ensures Places(received, attempt, failing)[i] < Places(received, attempt, failing)[j]
    decreases received
  {
    var front := received[..|received| - 1];
    if j < |Places(front, attempt, failing)| {
      PlacesIncrease(front, attempt, failing, i, j);
    } else {
      assert Places(received, attempt, failing)[i] == Places(front, attempt, failing)[i];
    }
  }

  lemma {:induction false} EveryPlaceOnce(received: seq<File>, attempt: Attempts)
    ensures |Places(received, attempt, true)| + |Places(received, attempt, false)| == |received|
    decreases received
  {
    if received == [] {
    } else {
      EveryPlaceOnce(received[..|received| - 1], attempt);
    }
  }

  /** A file as it is handed over and reported. */
  datatype Message = Message(file: File, outcome: Outcome)

  function InfosOf(messages: seq<Message>): seq<Info> {
    seq(|messages|, i requires 0 <= i < |messages| => Info(messages[i].file, messages[i].outcome.result.Failed?))
  }

  function EventsOf(messages: seq<Message>): seq<ReportEvent> {
    seq(|messages|, i requires 0 <= i < |messages| =>
      FileEvent(messages[i].outcome.result, messages[i].outcome.bytes))
  }

  /** The files whose first attempt does not fail, with its outcome. */
  function AtOnce(received: seq<File>, attempt: Attempts): seq<Message> {
    var places := Places(received, attempt, false);
    seq(|places|, i requires 0 <= i < |places| =>
      Message(received[places[i]], OutcomeOf(attempt(places[i], received[places[i]]))))
  }

  /** The other ones. */
  function PutBack(received: seq<File>, attempt: Attempts): seq<File> {
    var places := Places(received, attempt, true);
    seq(|places|, i requires 0 <= i < |places| => received[places[i]])
  }

  /** The files that have been put back: the first `tries` with the outcome of another attempt, the rest as failed. */
  function Later(files: seq<File>, calls: nat, attempt: Attempts, tries: nat): seq<Message> {
    seq(|files|, i requires 0 <= i < |files| =>
      Message(files[i], if i < tries then OutcomeOf(attempt(calls + i, files[i])) else Outcome(Failed, 0)))
  }

  lemma MessagesSnoc(messages: seq<Message>, m: Message)
    ensures InfosOf(messages + [m]) == InfosOf(messages) + [Info(m.file, m.outcome.result.Failed?)]
    ensures EventsOf(messages + [m]) == EventsOf(messages) + [FileEvent(m.outcome.result, m.outcome.bytes)]
  {
  }

  lemma ReceivedSnoc(received: seq<File>, f: File, attempt: Attempts)
    ensures var o := OutcomeOf(attempt(|received|, f));
      && AtOnce(received + [f], attempt)
          == AtOnce(received, attempt) + (if o.result.Failed? then [] else [Message(f, o)])
      && PutBack(received + [f], attempt) == PutBack(received, attempt) + (if o.result.Failed? then [f] else [])
  {
    var all, k := received + [f], |received|;
    assert all[..k] == received && all[k] == f;
    assert forall i | 0 <= i < k :: all[i] == received[i];
    var good, bad := Places(received, attempt, false), Places(received, attempt, true);
    assert Places(all, attempt, false) == good || Places(all, attempt, false) == good + [k];
    assert Places(all, attempt, true) == bad || Places(all, attempt, true) == bad + [k];
  }

  /** Whether the main loop has ended with the interrupt or with the end of the input. */
  datatype MainEnd = BySignal | ByClosing

  /** What changes around a transferor only once: the interrupt, and the end of the input. */
  datatype Surroundings = Surroundings(interrupted: bool, closed: bool) {
    /** They may be the others later on. */
    predicate Become(later: Surroundings) {
      (interrupted ==> later.interrupted) && (closed ==> later.closed)
    }
  }

  const CALM := Surroundings(false, false)

  function Around(s: State): Surroundings {
    Surroundings(s.interrupted, s.Queue1Closed())
  }

  /** A state in which a transferor sees what it has to see. */
  function Seeing(c: Config, e: Surroundings, queue1: seq<File>, target: Target): (s: State)
    ensures Around(s) == e
  {
    var s := Start(c);
    s.(queue1 := queue1, interrupted := e.interrupted, target := target,
       scraper := s.scraper.(stage := if e.closed then ScraperDone else Scraping))
  }

  /** The transferor can make the move in some state with these surroundings. */
  ghost predicate Hop(c: Config, e: Surroundings, w: Worker, m: WorkerMove, w': Worker) {
    exists s: State :: Around(s) == e && WorkerCan(c, s, w, m) && Moved(c, s, w, m) == w'
  }

  /** The path of a transferor: its states, its moves, and the surroundings of each state. */
  datatype Trail = Trail(workers: seq<Worker>, moves: seq<WorkerMove>, around: seq<Surroundings>) {
    predicate Shaped() {
      |workers| == |around| == |moves| + 1
    }

    function Last(): Worker
      requires Shaped()
    {
      workers[|moves|]
    }

    function Now(): Surroundings
      requires Shaped()
    {
      around[|moves|]
    }

    function Add(m: WorkerMove, w: Worker, e: Surroundings): Trail {
      Trail(workers + [w], moves + [m], around + [e])
    }

    /** A move is made in the surroundings of the state after it, and what has changed does not change back. */
    ghost predicate IsPath(c: Config) {
      && Shaped() && workers[0] == Worker(Main, Idle, []) && around[0] == CALM
      && forall k | 0 <= k < |moves| :: IsStep(c, k)
    }

    ghost predicate IsStep(c: Config, k: nat)
      requires Shaped() && k < |moves|
    {
      around[k].Become(around[k + 1]) && Hop(c, around[k + 1], workers[k], moves[k], workers[k + 1])
    }

    /** The path without its last move. */
    function Front(): (t: Trail)
      requires Shaped() && moves != []
      ensures t.Shaped()
    {
      var k := |moves| - 1;
      Trail(workers[..k + 1], moves[..k], around[..k + 1])
    }

    /** What has been handed over and reported on the way. */
    function HandedOver(): seq<Info>
      requires Shaped()
      decreases |moves|
    {
      if moves == [] then [] else
      var k := |moves| - 1;
      Front().HandedOver()
        + if moves[k].HandOver? && workers[k].phase.Handing? then
            [Info(workers[k].phase.file, workers[k].phase.outcome.result.Failed?)]
          else []
    }

    /** What has been received on the way. */
    function Taken(): seq<File>
      requires Shaped()
      decreases |moves|
    {
      if moves == [] then [] else
      var k := |moves| - 1;
      Front().Taken() + if moves[k].Take? && workers[k + 1].phase.Trying? then [workers[k + 1].phase.file] else []
    }

    function Reported(): seq<ReportEvent>
      requires Shaped()
      decreases |moves|
    {
      if moves == [] then [] else
      var k := |moves| - 1;
      Front().Reported()
        + if moves[k].Report? && workers[k].phase.Reporting? then
            [FileEvent(workers[k].phase.outcome.result, workers[k].phase.outcome.bytes)]
          else []
    }
  }

  lemma FrontOfAdd(t: Trail, m: WorkerMove, w: Worker, e: Surroundings)
    requires t.Shaped()
    ensures t.Add(m, w, e).Front() == t
  {
    var u, n := t.Add(m, w, e), |t.moves|;
    assert u.workers[..n + 1] == t.workers && u.moves[..n] == t.moves && u.around[..n + 1] == t.around;
  }

  lemma AddIsPath(c: Config, t: Trail, m: WorkerMove, w: Worker, e: Surroundings)
    requires t.IsPath(c) && t.Now().Become(e) && Hop(c, e, t.Last(), m, w)
    ensures t.Add(m, w, e).IsPath(c)
  {
    var u := t.Add(m, w, e);
    forall k | 0 <= k < |u.moves|
      ensures u.IsStep(c, k)
    {
      assert k < |t.moves| ==> t.IsStep(c, k);
    }
  }

  lemma PathGrows(c: Config, t: Trail, m: WorkerMove, w: Worker, e: Surroundings)
    requires t.IsPath(c) && t.Now().Become(e) && Hop(c, e, t.Last(), m, w)
    ensures var u := t.Add(m, w, e); u.IsPath(c) && u.Last() == w && u.Now() == e
    ensures t.Add(m, w, e).HandedOver() == t.HandedOver() + (if m.HandOver? && t.Last().phase.Handing? then
              [Info(t.Last().phase.file, t.Last().phase.outcome.result.Failed?)] else [])
    ensures t.Add(m, w, e).Reported() == t.Reported() + (if m.Report? && t.Last().phase.Reporting? then
              [FileEvent(t.Last().phase.outcome.result, t.Last().phase.outcome.bytes)] else [])
    ensures t.Add(m, w, e).Taken() == t.Taken() + (if m.Take? && w.phase.Trying? then [w.phase.file] else [])
  {
    AddIsPath(c, t, m, w, e);
    FrontOfAdd(t, m, w, e);
  }

  lemma SendingHops(c: Config, e: Surroundings, stage: Stage, file: File, outcome: Outcome, retry: seq<File>)
    ensures Hop(c, e, Worker(stage, Handing(file, outcome), retry), WorkerMove.HandOver,
                Worker(stage, Reporting(file, outcome), retry))
    ensures Hop(c, e, Worker(stage, Reporting(file, outcome), retry), WorkerMove.Report, Worker(stage, Idle, retry))
  {
    var s, w := Seeing(c, e, [], map[]), Worker(stage, Handing(file, outcome), retry);
    var w' := Moved(c, s, w, WorkerMove.HandOver);
    assert WorkerCan(c, s, w, WorkerMove.HandOver) && WorkerCan(c, s, w', WorkerMove.Report);
  }

  /** Handing over and reporting, one after the other. */
  lemma SendingGrows(c: Config, t: Trail, stage: Stage, file: File, outcome: Outcome, retry: seq<File>)
    returns (u: Trail)
    requires t.IsPath(c) && t.Last() == Worker(stage, Handing(file, outcome), retry)
    ensures u.IsPath(c) && u.Last() == Worker(stage, Idle, retry) && u.Taken() == t.Taken() && u.Now() == t.Now()
    ensures u.HandedOver() == t.HandedOver() + [Info(file, outcome.result.Failed?)]
    ensures u.Reported() == t.Reported() + [FileEvent(outcome.result, outcome.bytes)]
  {
    var e := t.Now();
    SendingHops(c, e, stage, file, outcome, retry);
    PathGrows(c, t, WorkerMove.HandOver, Worker(stage, Reporting(file, outcome), retry), e);
    u := t.Add(WorkerMove.HandOver, Worker(stage, Reporting(file, outcome), retry), e);
    PathGrows(c, u, WorkerMove.Report, Worker(stage, Idle, retry), e);
    u := u.Add(WorkerMove.Report, Worker(stage, Idle, retry), e);
  }

  /** The message for one more file. */
  lemma OneMore(messages: seq<Message>, files: seq<File>, calls: nat, attempt: Attempts, tries: nat, i: nat)
    returns (m: Message)
    requires i < |files|
    ensures files[i..] == [files[i]] + files[i + 1..]
    ensures m == Message(files[i], if i < tries then OutcomeOf(attempt(calls + i, files[i])) else Outcome(Failed, 0))
    ensures var later := Later(files, calls, attempt, tries);
      messages + later[..i + 1] == messages + later[..i] + [m]
  {
    var later := Later(files, calls, attempt, tries);
    m := later[i];
    assert later[..i + 1] == later[..i] + [m];
  }

  class Transferor {
    ghost const c: Config
    var output: seq<Info>
    var report: seq<ReportEvent>
    ghost var trail: Trail

    constructor (ghost c: Config)
      ensures this.c == c && output == [] && report == [] && At(Main, Idle, [], CALM)
      ensures trail.Taken() == []
    {
      this.c := c;
      output, report, trail := [], [], Trail([Worker(Main, Idle, [])], [], [CALM]);
    }

    /** What has been sent to the channels is what the path says. */
    ghost predicate Follows()
      reads this
    {
      trail.IsPath(c) && output == trail.HandedOver() && report == trail.Reported()
    }

    /** Where the path has led to. */
    ghost predicate At(stage: Stage, phase: Phase, retry: seq<File>, e: Surroundings)
      reads this
    {
      Follows() && trail.Last() == Worker(stage, phase, retry) && trail.Now() == e
    }

    ghost method Move(s: State, m: WorkerMove)
      requires Follows() && trail.Now().Become(Around(s)) && WorkerCan(c, s, trail.Last(), m)
      requires !m.HandOver? && !m.Report? && !m.Take?
      modifies this`trail
      ensures Follows() && trail.Last() == old(Moved(c, s, trail.Last(), m)) && trail.Now() == Around(s)
      ensures trail.Taken() == old(trail.Taken())
    {
      var w := Moved(c, s, trail.Last(), m);
      PathGrows(c, trail, m, w, Around(s));
      trail := trail.Add(m, w, Around(s));
    }

    /** Receiving a file. */
    ghost method Receive(file: File, retry: seq<File>)
      requires At(Main, Idle, retry, CALM)
      modifies this`trail
      ensures At(Main, Trying(file), retry, CALM) && trail.Taken() == old(trail.Taken()) + [file]
    {
      var s := Seeing(c, CALM, [file], map[]);
      var w := Moved(c, s, trail.Last(), Take);
      PathGrows(c, trail, Take, w, CALM);
      trail := trail.Add(Take, w, CALM);
    }

    /** Sending into both channels. */
    method Send(file: File, outcome: Outcome, ghost stage: Stage, ghost retry: seq<File>, ghost e: Surroundings)
      requires At(stage, Handing(file, outcome), retry, e)
      modifies this
      ensures At(stage, Idle, retry, e) && trail.Taken() == old(trail.Taken())
      ensures output == old(output) + [Info(file, outcome.result.Failed?)]
      ensures report == old(report) + [FileEvent(outcome.result, outcome.bytes)]
    {
      trail := SendingGrows(c, trail, stage, file, outcome, retry);
      output := output + [Info(file, outcome.result.Failed?)];
      report := report + [FileEvent(outcome.result, outcome.bytes)];
    }

    /** A file is tried; after a failure it is put back, or held as failed. */
    method Try(a: Attempt, file: File, ghost stage: Stage, ghost retry: seq<File>, ghost e: Surroundings)
      returns (outcome: Outcome)
      requires At(stage, Trying(file), retry, e) && (a.Unseen? <==> c.Fixed(file)) && (stage.Main? || stage.Retrying?)
      modifies this`trail
      ensures outcome == OutcomeOf(a)
      ensures outcome.result.Failed? && stage.Main? ==> At(stage, Idle, retry + [file], e)
      ensures !(outcome.result.Failed? && stage.Main?) ==> At(stage, Handing(file, outcome), retry, e)
      ensures trail.Taken() == old(trail.Taken())
    {
      ghost var s := Seeing(c, e, [], map[]);
      match a
      case Unseen =>
        outcome := Outcome(Skipped, 0);
        Move(s, SkipImmutable);
      case HeadFails =>
        outcome := Outcome(Failed, 0);
        Move(s, Fail);
      case NotModified(known) =>
        outcome := Outcome(Skipped, 0);
        LookFor(file, Some(known), stage, retry, e);
        Move(s, Skip);
      case GetFails(found) =>
        outcome := Outcome(Failed, 0);
        LookFor(file, found, stage, retry, e);
        Move(s, Fail);
      case Uploads(found, bytes, version) =>
        outcome := Outcome(Success, bytes);
        LookFor(file, found, stage, retry, e);
        Move(s, Upload(bytes, version));
      case Breaks(found, left, kept) =>
        outcome := Outcome(Failed, 0);
        LookFor(file, found, stage, retry, e);
        Move(s, FailUpload(left));
        Move(s, Delete(kept));
    }

    ghost method LookFor(file: File, found: Option<Version>, stage: Stage, retry: seq<File>, e: Surroundings)
      requires At(stage, Trying(file), retry, e) && !c.Fixed(file)
      modifies this`trail
      ensures At(stage, Looked(file, found), retry, e) && trail.Taken() == old(trail.Taken())
    {
      Move(Seeing(c, e, [], if found.Some? then map[c.name(file) := found.value] else map[]), Look);
    }

    /**
     * `Transferor.Run`: the files that the main loop receives, how it ends, how attempt
     * number `k` goes, the iteration of the retry loop from which on the context is done,
     * and the files that remain in the channel. Files are handed over and reported at once
     * if their first attempt does not fail, and the others after the main loop, with the
     * outcome of a second attempt unless there has been an interrupt.
     */
    method Run(received: seq<File>, end: MainEnd, attempt: Attempts, doneFrom: nat, rest: seq<File>)
      requires At(Main, Idle, [], CALM) && output == [] && report == [] && trail.Taken() == []
      requires forall k, f :: attempt(k, f).Unseen? <==> c.Fixed(f)
      requires end.ByClosing? ==> rest == []
      modifies this
      ensures Follows() && trail.Last() == Worker(Ending, Idle, []) && trail.Taken() == received
      ensures var tries := if end.ByClosing? then doneFrom else 0;
        var messages := AtOnce(received, attempt) + Later(PutBack(received, attempt), |received|, attempt, tries);
        output == InfosOf(messages) && report == EventsOf(messages)
      ensures |output| == |report| == |received|
    {
      var filesToRetry := MainLoop(received, attempt);
      var aborted := end.BySignal?;
      ghost var e := Surroundings(aborted, !aborted);
      Move(Seeing(c, e, [], map[]), if aborted then SeeInterrupt else SeeClosed);
      e := RetryAll(filesToRetry, aborted, |received|, attempt, doneFrom, e, AtOnce(received, attempt));
      Move(Seeing(c, e, [], map[]), EndRetry);
      DrainAll(rest, aborted, e);
      Move(Seeing(c, e.(closed := true), [], map[]), EndDrain);
      EveryPlaceOnce(received, attempt);
    }

    /** What has been sent into both channels. */
    ghost predicate Has(messages: seq<Message>)
      reads this
    {
      output == InfosOf(messages) && report == EventsOf(messages)
    }

    /** The first loop of `Run`. */
    method MainLoop(received: seq<File>, attempt: Attempts) returns (filesToRetry: seq<File>)
      requires At(Main, Idle, [], CALM) && output == [] && report == [] && trail.Taken() == []
      requires forall k, f :: attempt(k, f).Unseen? <==> c.Fixed(f)
      modifies this
      ensures At(Main, Idle, filesToRetry, CALM) && trail.Taken() == received
      ensures filesToRetry == PutBack(received, attempt) && Has(AtOnce(received, attempt))
    {
      filesToRetry := [];
      for i := 0 to |received|
        invariant At(Main, Idle, filesToRetry, CALM) && trail.Taken() == received[..i]
        invariant filesToRetry == PutBack(received[..i], attempt) && Has(AtOnce(received[..i], attempt))
      {
        assert received[..i + 1] == received[..i] + [received[i]];
        ReceivedSnoc(received[..i], received[i], attempt);
        Receive(received[i], filesToRetry);
        var outcome := Try(attempt(i, received[i]), received[i], Main, filesToRetry, CALM);
        if outcome.result.Failed? {
          filesToRetry := filesToRetry + [received[i]];
        } else {
          MessagesSnoc(AtOnce(received[..i], attempt), Message(received[i], outcome));
          Send(received[i], outcome, Main, filesToRetry, CALM);
        }
      }
      assert received[..|received|] == received;
    }

    /** The last loop of `Run`. */
    method DrainAll(rest: seq<File>, ghost aborted: bool, ghost e: Surroundings)
      requires At(Draining(aborted), Idle, [], e)
      modifies this`trail
      ensures At(Draining(aborted), Idle, [], e) && trail.Taken() == old(trail.Taken())
    {
      for i := 0 to |rest|
        invariant At(Draining(aborted), Idle, [], e) && trail.Taken() == old(trail.Taken())
      {
        Move(Seeing(c, e, [rest[i]], map[]), Drain);
      }
    }

    /** Taking a file from the list of those to be retried; it has failed if there is an interrupt. */
    ghost method TakeBack(file: File, rest: seq<File>, aborted: bool, before: Surroundings, e: Surroundings)
      requires At(Retrying(aborted), Idle, [file] + rest, before) && before.Become(e)
      modifies this`trail
      ensures var phase := if aborted || e.interrupted then Handing(file, Outcome(Failed, 0)) else Trying(file);
        At(Retrying(aborted), phase, rest, e)
      ensures trail.Taken() == old(trail.Taken())
    {
      assert ([file] + rest)[1..] == rest;
      Move(Seeing(c, e, [], map[]), NextRetry);
    }

    /** One iteration of the second loop of `Run`. */
    method Retry(file: File, aborted: bool, done: bool, a: Attempt, ghost rest: seq<File>, ghost e: Surroundings,
                 ghost messages: seq<Message>) returns (ghost later: Surroundings)
      requires At(Retrying(aborted), Idle, [file] + rest, e) && (a.Unseen? <==> c.Fixed(file)) && Has(messages)
      requires e.interrupted ==> aborted || done
      modifies this
      ensures At(Retrying(aborted), Idle, rest, later) && trail.Taken() == old(trail.Taken())
      ensures e.Become(later) && (later.interrupted ==> aborted || done)
      ensures Has(messages + [Message(file, if aborted || done then Outcome(Failed, 0) else OutcomeOf(a))])
    {
      var outcome := Outcome(Failed, 0);
      later := if aborted || done then e.(interrupted := true) else e;
      TakeBack(file, rest, aborted, e, later);
      if !aborted && !done {
        outcome := Try(a, file, Retrying(aborted), rest, later);
      }
      Send(file, outcome, Retrying(aborted), rest, later);
      MessagesSnoc(messages, Message(file, outcome));
    }

    /** The second loop of `Run`. */
    method RetryAll(filesToRetry: seq<File>, aborted: bool, calls: nat, attempt: Attempts, doneFrom: nat,
                    ghost before: Surroundings, ghost messages: seq<Message>) returns (ghost e: Surroundings)
      requires At(Retrying(aborted), Idle, filesToRetry, before) && Has(messages)
      requires forall k, f :: attempt(k, f).Unseen? <==> c.Fixed(f)
      requires aborted == before.interrupted
      modifies this
      ensures At(Retrying(aborted), Idle, [], e) && before.Become(e) && trail.Taken() == old(trail.Taken())
      ensures Has(messages + Later(filesToRetry, calls, attempt, if aborted then 0 else doneFrom))
    {
      e := before;
      ghost var sent, tries := messages, if aborted then 0 else doneFrom;
      assert messages + Later(filesToRetry, calls, attempt, tries)[..0] == messages;
      for i := 0 to |filesToRetry|
        invariant At(Retrying(aborted), Idle, filesToRetry[i..], e) && trail.Taken() == old(trail.Taken())
        invariant before.Become(e) && (e.interrupted ==> aborted || doneFrom < i)
        invariant Has(sent) && sent == messages + Later(filesToRetry, calls, attempt, tries)[..i]
      {
        var file := filesToRetry[i];
        ghost var m := OneMore(messages, filesToRetry, calls, attempt, tries, i);
        e := Retry(file, aborted, doneFrom <= i, attempt(calls + i, file), filesToRetry[i + 1..], e, sent);
        sent := sent + [m];
      }
      ghost var later := Later(filesToRetry, calls, attempt, tries);
      assert later[..|filesToRetry|] == later;
    }
  }
}
