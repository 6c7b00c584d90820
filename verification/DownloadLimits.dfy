/**
 * How much a segmented download asks of the server: restarts, the shape of the ranges,
 * the number of requests, and the number of reads until it ends.
 */
module DownloadLimits {
  import opened Base
  import opened ContentRange
  import opened Download
  import opened DownloadCorrect

  // ----- restarts -----

  /** How often a download may restart at one offset. No error at offset 0 is ever the first one there. */
  function RestartLimit(offset: nat): nat {
    if offset == 0 then 3 else 4
  }

  ghost predicate FewRestarts(restarts: seq<nat>) {
    && |restarts| <= 10
    && forall offset: nat :: multiset(restarts)[offset] <= RestartLimit(offset)
  }

  /** At offset `offset`, the three retry counters describe the restarts granted so far. */
  ghost predicate CountersAgree(r: Retries, offset: nat) {
    && FewRestarts(r.restarts)
    && r.total == |r.restarts|
    && r.lastErrorAt <= offset
    && (forall i | 0 <= i < |r.restarts| :: r.restarts[i] <= r.lastErrorAt)
    && multiset(r.restarts)[r.lastErrorAt] == r.lastErrorCount + if r.lastErrorAt == 0 then 0 else 1
  }

  /** No further restart is allowed at this offset. */
  ghost predicate Exhausted(restarts: seq<nat>, offset: nat) {
    |restarts| == 10 || multiset(restarts)[offset] == RestartLimit(offset)
  }

  /** `shouldRetry` grants a restart exactly when the limits allow one more. */
  lemma RetryIffAllowed(r: Retries, offset: nat)
    requires CountersAgree(r, offset)
    ensures var (r1, retry) := ShouldRetry(r, offset);
      && (retry <==> !Exhausted(r.restarts, offset))
      && (retry ==> CountersAgree(r1, offset) && r1.restarts == r.restarts + [offset])
      && (!retry ==> r1.restarts == r.restarts)
  {
    if r.lastErrorAt != offset {
      assert multiset(r.restarts)[offset] == 0 by {
        assert forall i | 0 <= i < |r.restarts| :: r.restarts[i] != offset;
        assert offset !in r.restarts;
      }
    }
  }

  /** The limits hold in every state, and the download gives up on a read error only when they are reached. */
  ghost predicate WithinLimits(s: State, error: Option<Error>) {
    && FewRestarts(s.retries.restarts)
    && (error == Some(BodyError) ==> Exhausted(s.retries.restarts, s.bytesRead))
    && (error != Some(BodyError) ==> CountersAgree(s.retries, s.bytesRead))
  }

  lemma AfterBodyWithinLimits(server: Server, seg: nat, s: State)
    requires CountersAgree(s.retries, s.bytesRead) && !s.reader.NoReader?
    ensures var (s1, error) := AfterBody(server, seg, s);
      WithinLimits(s1, error)
  {
    RetryIffAllowed(s.retries, s.bytesRead);
  }

  lemma ReadWithinLimits(server: Server, seg: nat, s: State, want: nat)
    requires CountersAgree(s.retries, s.bytesRead) && s.Readable()
    ensures var o := Read(server, seg, s, want);
      WithinLimits(o.state, o.error)
  {
    if s.reader.Closed? {
      AfterBodyWithinLimits(server, seg, s);
    } else if s.reader.Open? {
      AfterBodyWithinLimits(server, seg, Advance(s, s.reader.body.Deliver(s.reader.pos, want).0));
    }
  }

  /** For every server: at most 10 restarts, at most 3 of them at offset 0 and 4 at any other. */
  lemma {:induction false} RestartsAreLimited(server: Server, seg: nat, s: State, wants: seq<nat>)
    requires CountersAgree(s.retries, s.bytesRead) && s.Readable()
    ensures var o := Run(server, seg, s, wants);
      WithinLimits(o.state, o.error)
    decreases wants
  {
    if wants == [] {
    } else {
      ReadWithinLimits(server, seg, s, wants[0]);
      var o := Read(server, seg, s, wants[0]);
      if o.error.None? {
        RestartsAreLimited(server, seg, o.state, wants[1..]);
      }
    }
  }

  // ----- the ranges -----

  /** A request for at least one and at most `seg` bytes, all of them below `total`. */
  predicate GoodRange(range: ByteRange, seg: nat, total: nat) {
    range.first <= range.last < total && range.last - range.first < seg
  }

  /** A follow-up request is well formed exactly when the sum of offset and segment size fits in 64 bits. */
  lemma RangeGoodIffNoWrap(seg: nat, s: State)
    requires 0 < seg < U64 && s.bytesTotal.Some? && s.bytesRead < s.bytesTotal.value < U64
    ensures GoodRange(NextRange(seg, s), seg, s.bytesTotal.value) <==> s.bytesRead + seg < U64
    ensures s.bytesRead + seg < U64 ==>
      NextRange(seg, s) == ByteRange(s.bytesRead, Min(s.bytesRead + seg, s.bytesTotal.value) - 1)
  {
  }

  // ----- the number of requests -----

  /** A body that ends without error has exactly the bytes its request asked for. */
  ghost predicate Exact(server: Server, versions: Versions) {
    forall k: nat, range: ByteRange :: ExactReply(versions, range, server(k, range))
  }

  ghost predicate ExactReply(versions: Versions, range: ByteRange, reply: Reply) {
    reply.Reply? && reply.status == PARTIAL_CONTENT && reply.etag in versions && !reply.body.broken
    && range.first <= range.last && StartsAt(reply.contentRange, range.first) ==>
      range.first + |reply.body.data| == Min(range.last + 1, |versions[reply.etag]|)
  }

  /** The number of segments of `n` bytes. */
  function Segments(n: int, seg: nat): nat
    requires 0 < seg
    decreases n
  {
    if n <= 0 then 0 else 1 + Segments(n - seg, seg)
  }

  /** It is the ceiling of `n / seg`: the least number of segments that covers `n` bytes. */
  lemma {:induction false} SegmentsIsCeiling(n: nat, seg: nat)
    requires 0 < seg
    ensures n <= Segments(n, seg) * seg < n + seg
    decreases n
  {
    if n == 0 {
    } else {
      var k := Segments(n - seg, seg);
      if n > seg {
        SegmentsIsCeiling(n - seg, seg);
      }
      assert (k + 1) * seg == k * seg + seg;
    }
  }

  lemma {:induction false} SegmentsMonotone(m: int, n: int, seg: nat)
    requires 0 < seg && m <= n
    ensures Segments(m, seg) <= Segments(n, seg)
    decreases n
  {
    if m <= 0 {
    } else {
      SegmentsMonotone(m - seg, n - seg, seg);
    }
  }

  /** The requests that were not caused by a restart. */
  function Planned(s: State): int {
    |s.log| - |s.retries.restarts|
  }

  /** The planned requests so far, against the segments that remain after the current body. */
  ghost predicate Paced(s: State, seg: nat, total: nat)
    requires 0 < seg
  {
    && (forall i | 1 <= i < |s.log| :: GoodRange(s.log[i], seg, total))
    && Planned(s) <= Segments(total, seg)
    && (s.reader.Open? ==>
          && s.reader.pos <= s.bytesRead
          && var base := s.bytesRead - s.reader.pos;
             && base < total
             && Planned(s) + Segments(total - base - seg, seg) <= Segments(total, seg)
             && (!s.reader.body.broken ==>
                   base + |s.reader.body.data| == total || |s.reader.body.data| >= seg))
  }

  ghost predicate Sized(seg: nat, total: nat) {
    0 < seg && 0 < total && total + seg <= U64
  }

  lemma NextChunkPaced(server: Server, seg: nat, s: State, versions: Versions)
    requires Honest(server, versions) && Exact(server, versions) && Reading(s, versions)
    requires Sized(seg, |versions[s.etag]|)
    requires !s.reader.Open? && Paced(s, seg, |versions[s.etag]|)
    requires Planned(s) + Segments(|versions[s.etag]| - s.bytesRead, seg) <= Segments(|versions[s.etag]|, seg)
    ensures Paced(NextChunk(server, seg, s).0, seg, |versions[s.etag]|)
  {
    var total := |versions[s.etag]|;
    if s.bytesRead < total {
      RangeGoodIffNoWrap(seg, s);
      var range := NextRange(seg, s);
      var (s1, error) := NextChunk(server, seg, s);
      assert s1.log == s.log + [range];
      assert Planned(s1) == Planned(s) + 1;
      if error.None? {
        AcceptedChunk(server, seg, s, versions);
        assert ExactReply(versions, range, server(|s.log|, range));
      }
    }
  }

  lemma AfterBodyPaced(server: Server, seg: nat, s: State, versions: Versions)
    requires Honest(server, versions) && Exact(server, versions) && Reading(s, versions)
    requires Sized(seg, |versions[s.etag]|)
    requires s.reader.Open? && s.reader.pos == |s.reader.body.data|
    requires Paced(s, seg, |versions[s.etag]|)
    ensures Paced(AfterBody(server, seg, s).0, seg, |versions[s.etag]|)
  {
    var total, base := |versions[s.etag]|, s.bytesRead - s.reader.pos;
    if s.reader.body.broken {
      var (r, retry) := ShouldRetry(s.retries, s.bytesRead);
      if retry {
        SegmentsMonotone(total - s.bytesRead, total - base, seg);
        NextChunkPaced(server, seg, s.(retries := r, reader := Closed), versions);
      }
    } else if !s.reader.body.closeFails {
      SegmentsMonotone(total - s.bytesRead, if s.bytesRead == total then 0 else total - base - seg, seg);
      NextChunkPaced(server, seg, s.(reader := NoReader), versions);
    }
  }

  lemma ReadPaced(server: Server, seg: nat, s: State, want: nat, versions: Versions)
    requires Honest(server, versions) && Exact(server, versions) && Reading(s, versions)
    requires Sized(seg, |versions[s.etag]|)
    requires s.reader.Open? && Paced(s, seg, |versions[s.etag]|)
    ensures Paced(Read(server, seg, s, want).state, seg, |versions[s.etag]|)
  {
    var (n, end) := s.reader.body.Deliver(s.reader.pos, want);
    var s1 := Advance(s, n);
    ReadKeeps(server, seg, s, n, versions);
    if end {
      AfterBodyPaced(server, seg, s1, versions);
    }
  }

  lemma {:induction false} RunPaced(server: Server, seg: nat, s: State, wants: seq<nat>, versions: Versions)
    requires Honest(server, versions) && Exact(server, versions) && Reading(s, versions)
    requires Sized(seg, |versions[s.etag]|)
    requires s.reader.Open? && Paced(s, seg, |versions[s.etag]|)
    ensures Paced(Run(server, seg, s, wants).state, seg, |versions[s.etag]|)
    decreases wants
  {
    if wants == [] {
    } else {
      ReadKeeps(server, seg, s, wants[0], versions);
      ReadPaced(server, seg, s, wants[0], versions);
      var o := Read(server, seg, s, wants[0]);
      if o.error.None? {
        RunPaced(server, seg, o.state, wants[1..], versions);
      }
    }
  }

  /** The state in which `EnhancedGet` hands over to the downloader, for an honest and exact server. */
  ghost predicate Started(server: Server, seg: nat, versions: Versions, s: State) {
    && Honest(server, versions) && Exact(server, versions) && FirstPartAtZero(server, seg)
    && s.etag in versions && Sized(seg, |versions[s.etag]|)
    && var (s1, chunk) := GetNextChunk(server, seg, START);
       chunk.Chunk? && chunk.reply.status == PARTIAL_CONTENT && s == s1.(reader := Open(chunk.reply.body, 0))
  }

  /** A truthful and exact server has the file in segments, and no sum wraps. */
  ghost predicate InSegments(server: Server, plain: Reply, seg: nat, versions: Versions) {
    && Honest(server, versions) && Exact(server, versions) && FirstPartAtZero(server, seg)
    && EnhancedGet(server, plain, seg).Segmented?
    && var tag := EnhancedGet(server, plain, seg).state.etag; tag in versions ==> Sized(seg, |versions[tag]|)
  }

  lemma SegmentedIsStarted(server: Server, plain: Reply, seg: nat, versions: Versions)
    requires InSegments(server, plain, seg, versions)
    ensures Started(server, seg, versions, EnhancedGet(server, plain, seg).state)
  {
    AcceptedChunk(server, seg, START, versions);
  }

  /** The first request, and what an exact server sends for it. */
  lemma FirstChunk(server: Server, seg: nat, versions: Versions, s: State)
    requires Started(server, seg, versions, s)
    ensures var reply := server(0, ByteRange(0, seg - 1));
      && reply.Reply? && s.reader == Open(reply.body, 0) && s.etag == reply.etag
      && (!reply.body.broken ==> |reply.body.data| == Min(seg, |versions[s.etag]|))
    ensures Reading(s, versions) && s.bytesRead == 0 && |s.log| == 1 && s.retries == START.retries
  {
    var range := NextRange(seg, START);
    assert range == ByteRange(0, seg - 1);
    AcceptedChunk(server, seg, START, versions);
    assert ExactReply(versions, range, server(0, range));
    assert versions[s.etag][0..] == versions[s.etag];
  }

  lemma StartedPaced(server: Server, seg: nat, versions: Versions, s: State)
    requires 0 < seg && s.reader.Open? && s.reader.pos == s.bytesRead == 0 && |s.log| == 1
    requires s.etag in versions && Sized(seg, |versions[s.etag]|) && s.retries == START.retries
    requires !s.reader.body.broken ==> |s.reader.body.data| == Min(seg, |versions[s.etag]|)
    ensures Paced(s, seg, |versions[s.etag]|) && CountersAgree(s.retries, 0)
  {
    assert Segments(|versions[s.etag]|, seg) == 1 + Segments(|versions[s.etag]| - seg, seg);
  }

  lemma RunBounded(server: Server, seg: nat, s: State, wants: seq<nat>, versions: Versions)
    requires Honest(server, versions) && Exact(server, versions) && Reading(s, versions)
    requires Sized(seg, |versions[s.etag]|) && s.reader.Open?
    requires Paced(s, seg, |versions[s.etag]|) && CountersAgree(s.retries, s.bytesRead)
    ensures var log, total := Run(server, seg, s, wants).state.log, |versions[s.etag]|;
      && |log| <= Segments(total, seg) + MAX_TOTAL_RETRY
      && forall i | 1 <= i < |log| :: GoodRange(log[i], seg, total)
  {
    RunPaced(server, seg, s, wants, versions);
    RestartsAreLimited(server, seg, s, wants);
  }

  lemma StartedIsBounded(server: Server, seg: nat, versions: Versions, s: State, wants: seq<nat>)
    requires Started(server, seg, versions, s)
    ensures s.Readable()
    ensures var log, total := Run(server, seg, s, wants).state.log, |versions[s.etag]|;
      && |log| <= Segments(total, seg) + MAX_TOTAL_RETRY
      && forall i | 1 <= i < |log| :: GoodRange(log[i], seg, total)
  {
    FirstChunk(server, seg, versions, s);
    StartedPaced(server, seg, versions, s);
    RunBounded(server, seg, s, wants, versions);
  }

  /**
   * The request bound: a whole download sends at most ceil(total / SegmentBytes) + 10
   * range requests, wherever errors strike, and every request after the first one asks
   * for between one and SegmentBytes bytes below the total.
   */
  lemma RequestsAreBounded(server: Server, plain: Reply, seg: nat, versions: Versions, wants: seq<nat>)
    requires InSegments(server, plain, seg, versions)
    ensures var s := EnhancedGet(server, plain, seg).state;
      && s.etag in versions
      && var log, total := Run(server, seg, s, wants).state.log, |versions[s.etag]|;
      && |log| <= Segments(total, seg) + MAX_TOTAL_RETRY
      && forall i | 1 <= i < |log| :: GoodRange(log[i], seg, total)
  {
    SegmentedIsStarted(server, plain, seg, versions);
    StartedIsBounded(server, seg, versions, EnhancedGet(server, plain, seg).state, wants);
  }

  // ----- the end is reached -----

  /** No response body stalls. */
  ghost predicate Lively(server: Server) {
    forall k: nat, range: ByteRange :: server(k, range).Reply? ==> LivelyBody(server(k, range).body)
  }

  /** Bytes delivered and requests sent: every successful read advances one of them. */
  function Progress(s: State): nat {
    s.bytesRead + |s.log|
  }

  lemma ReadProgresses(server: Server, seg: nat, s: State, want: nat)
    requires Lively(server) && want > 0
    requires s.Readable() && s.reader.Open? && LivelyBody(s.reader.body)
    requires Read(server, seg, s, want).error.None?
    ensures var s1 := Read(server, seg, s, want).state;
      Progress(s1) > Progress(s) && s1.reader.Open? && LivelyBody(s1.reader.body)
  {
    var (n, end) := s.reader.body.Deliver(s.reader.pos, want);
    if end {
      AfterBodyProgresses(server, seg, Advance(s, n));
    } else {
      assert s.reader.body.cut(s.reader.pos, want).0 > 0;
    }
  }

  lemma AfterBodyProgresses(server: Server, seg: nat, s: State)
    requires Lively(server) && s.reader.Open? && AfterBody(server, seg, s).1.None?
    ensures var s1 := AfterBody(server, seg, s).0;
      Progress(s1) > Progress(s) && s1.reader.Open? && LivelyBody(s1.reader.body)
  {
    var (r, retry) := ShouldRetry(s.retries, s.bytesRead);
    var s1 := if s.reader.body.broken then s.(retries := r, reader := Closed) else s.(reader := NoReader);
    assert server(|s1.log|, NextRange(seg, s1)).Reply?;
    assert LivelyBody(server(|s1.log|, NextRange(seg, s1)).body);
  }

  lemma {:induction false} RunProgresses(server: Server, seg: nat, s: State, wants: seq<nat>)
    requires Lively(server) && forall i | 0 <= i < |wants| :: wants[i] > 0
    requires s.Readable() && s.reader.Open? && LivelyBody(s.reader.body)
    requires Run(server, seg, s, wants).error.None?
    ensures |wants| <= Progress(Run(server, seg, s, wants).state) - Progress(s)
    decreases wants
  {
    if wants == [] {
    } else {
      ReadProgresses(server, seg, s, wants[0]);
      RunProgresses(server, seg, Read(server, seg, s, wants[0]).state, wants[1..]);
    }
  }

  /** The server keeps answering range requests for the version `tag`; only its bodies may break off. */
  ghost predicate Steady(server: Server, versions: Versions, tag: string) {
    tag in versions
    && forall k: nat, range: ByteRange | range.first < |versions[tag]| :: SteadyReply(tag, range, server(k, range))
  }

  ghost predicate SteadyReply(tag: string, range: ByteRange, reply: Reply) {
    && reply.Reply? && reply.etag == tag && reply.status == PARTIAL_CONTENT && !reply.body.closeFails
    && StartsAt(reply.contentRange, range.first)
  }

  /** The only errors of a steady download. */
  ghost predicate EndsWell(s: State, error: Option<Error>) {
    && error in {None, Some(Eof), Some(BodyError)}
    && (error.None? ==> s.reader.Open? && !s.reader.body.closeFails)
  }

  lemma NextChunkSteady(server: Server, seg: nat, s: State, versions: Versions)
    requires Honest(server, versions) && Steady(server, versions, s.etag) && Reading(s, versions)
    ensures var (s1, error) := NextChunk(server, seg, s);
      EndsWell(s1, error)
  {
    if s.bytesRead < |versions[s.etag]| {
      var reply := server(|s.log|, NextRange(seg, s));
      assert SteadyReply(s.etag, NextRange(seg, s), reply);
      assert HonestReply(versions, reply);
    }
  }

  lemma {:induction false} RunSteady(server: Server, seg: nat, s: State, wants: seq<nat>, versions: Versions)
    requires Honest(server, versions) && Steady(server, versions, s.etag) && Reading(s, versions)
    requires s.reader.Open? && !s.reader.body.closeFails
    ensures var o := Run(server, seg, s, wants);
      EndsWell(o.state, o.error)
    decreases wants
  {
    if wants == [] {
    } else {
      var (n, end) := s.reader.body.Deliver(s.reader.pos, wants[0]);
      var o := Read(server, seg, s, wants[0]);
      ReadKeeps(server, seg, s, wants[0], versions);
      if end {
        var s1 := Advance(s, n);
        ReadKeeps(server, seg, s, n, versions);
        var (r, retry) := ShouldRetry(s1.retries, s1.bytesRead);
        var s2 := if s.reader.body.broken then s1.(retries := r, reader := Closed) else s1.(reader := NoReader);
        NextChunkSteady(server, seg, s2, versions);
        assert EndsWell(o.state, o.error);
      }
      if o.error.None? {
        RunSteady(server, seg, o.state, wants[1..], versions);
      }
    }
  }

  lemma StartedCompletes(server: Server, seg: nat, versions: Versions, s: State, wants: seq<nat>)
    requires Started(server, seg, versions, s)
    requires Lively(server) && Steady(server, versions, s.etag)
    requires forall i | 0 <= i < |wants| :: wants[i] > 0
    requires |wants| >= |versions[s.etag]| + Segments(|versions[s.etag]|, seg) + MAX_TOTAL_RETRY
    ensures s.Readable()
    ensures var o, version := Run(server, seg, s, wants), versions[s.etag];
      || (o.error == Some(Eof) && o.bytes == version)
      || (o.error == Some(BodyError) && o.bytes <= version
          && Exhausted(o.state.retries.restarts, o.state.bytesRead))
  {
    FirstChunk(server, seg, versions, s);
    var o, version := Run(server, seg, s, wants), versions[s.etag];
    assert SteadyReply(s.etag, ByteRange(0, seg - 1), server(0, ByteRange(0, seg - 1)));
    RunSteady(server, seg, s, wants, versions);
    RunDeliversOneVersion(server, seg, s, wants, versions);
    RestartsAreLimited(server, seg, s, wants);
    if o.error.None? {
      RunProgresses(server, seg, s, wants);
      StartedIsBounded(server, seg, versions, s, wants);
      assert false;
    }
  }

  /**
   * Total correctness: a caller who keeps reading with non-empty buffers from a steady
   * server sees an error after finitely many reads, and that error is `io.EOF` after the
   * whole version, unless the body broke off more often than the restart limits allow.
   */
  lemma DownloadCompletes(server: Server, plain: Reply, seg: nat, versions: Versions, wants: seq<nat>)
    requires InSegments(server, plain, seg, versions)
    requires Lively(server) && Steady(server, versions, EnhancedGet(server, plain, seg).state.etag)
    requires forall i | 0 <= i < |wants| :: wants[i] > 0
    requires var total := |versions[EnhancedGet(server, plain, seg).state.etag]|;
      |wants| >= total + Segments(total, seg) + MAX_TOTAL_RETRY
    ensures var s := EnhancedGet(server, plain, seg).state;
      var o, version := Run(server, seg, s, wants), versions[s.etag];
      || (o.error == Some(Eof) && o.bytes == version)
      || (o.error == Some(BodyError) && o.bytes <= version
          && Exhausted(o.state.retries.restarts, o.state.bytesRead))
  {
    SegmentedIsStarted(server, plain, seg, versions);
    StartedCompletes(server, seg, versions, EnhancedGet(server, plain, seg).state, wants);
  }
}
