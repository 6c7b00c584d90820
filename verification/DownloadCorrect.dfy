/**
 * What a caller gets from a segmented download: the bytes of one version of the
 * resource, in order, without loss or repetition, whatever the server does to single
 * responses.
 */
module DownloadCorrect {
  import opened Base
  import opened ContentRange
  import opened Download

  /** The versions of the resource, by the Etag that identifies them (section 2.3 of RFC 7232). */
  type Versions = map<string, seq<Byte>>

  /** The response claims to have the resource, or a part of it. */
  predicate HasContent(reply: Reply) {
    reply.Reply? && reply.status in {OK, PARTIAL_CONTENT}
  }

  /**
   * A truthful response: 200 and 206 carry (a prefix of) what they claim of the version
   * their Etag names. A server without Etags is the case of a single version named by the
   * empty string. Nothing is said about other responses.
   */
  ghost predicate HonestReply(versions: Versions, reply: Reply) {
    HasContent(reply) ==>
      var tag, body := reply.etag, reply.body;
      && tag in versions && ("" in versions ==> tag == "")
      && (reply.status == OK ==>
            body.data <= versions[tag] && (!body.broken ==> body.data == versions[tag]))
      && (reply.status == PARTIAL_CONTENT ==>
            HonestRange(versions[tag], body, reply.contentRange))
  }

  /** A well-formed Content-Range states the total and where the bytes belong. */
  ghost predicate HonestRange(version: seq<Byte>, body: Body, range: Option<Range>) {
    range.Some? ==>
      && range.value.total == Some(|version|)
      && range.value.start <= range.value.stop && range.value.start <= |version|
      && body.data <= version[range.value.start..]
      && (!body.broken ==> |body.data| == range.value.stop - range.value.start + 1)
  }

  /**
   * Truthful responses throughout. Only when the download restarts at offset 0, where the
   * code cannot tell a page without content from the resource, such a page has to have an
   * Etag of its own.
   */
  ghost predicate Honest(server: Server, versions: Versions) {
    forall k: nat, range: ByteRange :: HonestReply(versions, server(k, range))
      && NoPage(versions, k, range, server(k, range))
  }

  predicate NoPage(versions: Versions, k: nat, range: ByteRange, reply: Reply) {
    k > 0 && range.first == 0 && reply.Reply? && (reply.etag in versions || "" in versions) ==> HasContent(reply)
  }

  /** The downloader is in the middle of a version, and has sent a request. */
  ghost predicate Within(s: State, version: seq<Byte>) {
    && |s.log| > 0
    && s.bytesTotal == Some(|version|)
    && s.bytesRead <= |version|
    && (s.reader.Open? ==>
          && s.reader.pos <= |s.reader.body.data|
          && s.reader.pos <= s.bytesRead
          && s.reader.body.data <= version[s.bytesRead - s.reader.pos..])
  }

  /** That version is the one that its Etag names. */
  ghost predicate Reading(s: State, versions: Versions) {
    s.etag in versions && Within(s, versions[s.etag])
  }

  /** The part of a version that an accepted chunk claims to start with. */
  ghost predicate ChunkOf(chunk: Chunk, version: seq<Byte>)
    requires chunk.Chunk? && chunk.reply.Reply?
  {
    var body := chunk.reply.body;
    && chunk.start <= |version|
    && body.data <= version[chunk.start..]
    && (chunk.reply.status != PARTIAL_CONTENT ==> chunk.start == 0 && (!body.broken ==> body.data == version))
    && (chunk.reply.status == PARTIAL_CONTENT && !body.broken ==>
          chunk.length == if |body.data| == U64 then 0 else |body.data|)
  }

  ghost predicate StartsAt(range: Option<Range>, first: nat) {
    range.Some? && range.value.start == first
  }

  lemma AcceptedHeaders(s: State, reply: Reply, versions: Versions)
    requires HonestReply(versions, reply) && reply.Reply? && AcceptHeaders(s, reply).1.Chunk?
    ensures var (s1, chunk) := AcceptHeaders(s, reply);
      && s1.etag == s.etag
      && (s.bytesTotal.Some? || reply.status != PARTIAL_CONTENT ==> s1.bytesTotal == s.bytesTotal)
      && (reply.status == PARTIAL_CONTENT ==> reply.etag in versions && s1.bytesTotal == Some(|versions[reply.etag]|))
      && (if reply.status == PARTIAL_CONTENT then StartsAt(reply.contentRange, chunk.start) else chunk.start == 0)
      && (HasContent(reply) ==> reply.etag in versions && ChunkOf(chunk, versions[reply.etag]))
  {
    if reply.etag in versions {
      assert versions[reply.etag][0..] == versions[reply.etag];
    }
  }

  lemma AcceptedChunk(server: Server, seg: nat, s: State, versions: Versions)
    requires Honest(server, versions) && GetNextChunk(server, seg, s).1.Chunk?
    ensures var (s1, chunk) := GetNextChunk(server, seg, s);
      var reply := server(|s.log|, NextRange(seg, s));
      && chunk.reply == reply && reply.Reply?
      && s1.etag == reply.etag && (s.etag != "" ==> s1.etag == s.etag)
      && (s.bytesTotal.Some? || reply.status != PARTIAL_CONTENT ==> s1.bytesTotal == s.bytesTotal)
      && (reply.status == PARTIAL_CONTENT ==> reply.etag in versions && s1.bytesTotal == Some(|versions[reply.etag]|))
      && (if reply.status == PARTIAL_CONTENT then StartsAt(reply.contentRange, chunk.start) else chunk.start == 0)
      && (HasContent(reply) ==> reply.etag in versions && ChunkOf(chunk, versions[reply.etag]))
  {
    var range := NextRange(seg, s);
    var reply := server(|s.log|, range);
    assert HonestReply(versions, reply);
    AcceptedHeaders(s.(log := s.log + [range], etag := reply.etag), reply, versions);
  }

  lemma NextChunkKeeps(server: Server, seg: nat, s: State, versions: Versions)
    requires Honest(server, versions) && Reading(s, versions)
    ensures var (s1, error) := NextChunk(server, seg, s);
      && s1.bytesRead == s.bytesRead && Within(s1, versions[s.etag])
      && (error.None? ==> s1.etag == s.etag && s1.reader.Open?)
      && (error == Some(Eof) ==> s.bytesRead == |versions[s.etag]|)
  {
    var reply := server(|s.log|, NextRange(seg, s));
    assert HonestReply(versions, reply);
    if GetNextChunk(server, seg, s).1.Chunk? {
      AcceptedChunk(server, seg, s, versions);
    }
  }

  lemma AfterBodyKeeps(server: Server, seg: nat, s: State, versions: Versions)
    requires Honest(server, versions) && Reading(s, versions) && !s.reader.NoReader?
    ensures var (s1, error) := AfterBody(server, seg, s);
      && s1.bytesRead == s.bytesRead && Within(s1, versions[s.etag])
      && (error.None? ==> s1.etag == s.etag && s1.reader.Open?)
      && (error == Some(Eof) ==> s.bytesRead == |versions[s.etag]|)
  {
    if s.reader.Closed? || s.reader.body.broken {
      var (r, retry) := ShouldRetry(s.retries, s.bytesRead);
      if retry {
        NextChunkKeeps(server, seg, s.(retries := r, reader := Closed), versions);
      }
    } else if !s.reader.body.closeFails {
      NextChunkKeeps(server, seg, s.(reader := NoReader), versions);
    }
  }

  /** `o` is what reads from `s` may give: the next bytes of the same version. */
  ghost predicate Continues(s: State, o: Outcome, versions: Versions)
    requires s.etag in versions
  {
    var version := versions[s.etag];
    && s.bytesRead <= o.state.bytesRead <= |version|
    && o.bytes == version[s.bytesRead..o.state.bytesRead]
    && Within(o.state, version)
    && (o.error.None? ==> o.state.etag == s.etag && o.state.reader.Open?)
    && (o.error == Some(Eof) ==> o.state.bytesRead == |version|)
  }

  lemma ReadKeeps(server: Server, seg: nat, s: State, want: nat, versions: Versions)
    requires Honest(server, versions) && Reading(s, versions) && s.reader.Open?
    ensures Continues(s, Read(server, seg, s, want), versions)
  {
    var body, pos, version := s.reader.body, s.reader.pos, versions[s.etag];
    var (n, end) := body.Deliver(pos, want);
    var base := s.bytesRead - pos;
    assert body.data == version[base..][..|body.data|];
    assert body.data[pos..pos + n] == version[s.bytesRead..s.bytesRead + n];
    if end {
      AfterBodyKeeps(server, seg, Advance(s, n), versions);
    }
  }

  lemma ContinuesJoin(s: State, o: Outcome, rest: Outcome, versions: Versions)
    requires s.etag in versions && Continues(s, o, versions)
    requires o.state.etag == s.etag && Continues(o.state, rest, versions)
    ensures Continues(s, Outcome(rest.state, o.bytes + rest.bytes, rest.error), versions)
  {
    var version := versions[s.etag];
    var (i, j, k) := (s.bytesRead, o.state.bytesRead, rest.state.bytesRead);
    assert version[i..j] + version[j..k] == version[i..k];
  }

  /**
   * Download correctness, for a single version: up to the first error, the results of
   * `Read` are consecutive pieces of the version the download began with, and `io.EOF`
   * as the first error means that the end of that version has been reached.
   */
  lemma {:induction false} RunDeliversOneVersion(
      server: Server, seg: nat, s: State, wants: seq<nat>, versions: Versions)
    requires Honest(server, versions) && Reading(s, versions) && s.reader.Open?
    ensures Continues(s, Run(server, seg, s, wants), versions)
    decreases wants
  {
    if wants == [] {
    } else {
      var o := Read(server, seg, s, wants[0]);
      ReadKeeps(server, seg, s, wants[0], versions);
      if o.error.None? {
        RunDeliversOneVersion(server, seg, o.state, wants[1..], versions);
        ContinuesJoin(s, o, Run(server, seg, o.state, wants[1..]), versions);
      }
    }
  }

  // ----- EnhancedGet -----

  /** Successive reads from a response body that is passed to the caller as it is. */
  function RunBody(body: Body, pos: nat, wants: seq<nat>): (r: (seq<Byte>, Option<Error>))
    requires pos <= |body.data|
    ensures r.0 <= body.data[pos..]
    ensures r.1 == Some(Eof) ==> !body.broken && r.0 == body.data[pos..]
    decreases wants
  {
    if wants == [] then ([], None) else
    var (n, end) := body.Deliver(pos, wants[0]);
    var bytes := body.data[pos..pos + n];
    if end then (bytes, Some(if body.broken then BodyError else Eof)) else
    var (rest, error) := RunBody(body, pos + n, wants[1..]);
    assert body.data[pos..] == bytes + body.data[pos + n..];
    (bytes + rest, error)
  }

  /** The body of a successful response of `EnhancedGet`, as the caller reads it. */
  function Stream(server: Server, seg: nat, g: Got, wants: seq<nat>): (seq<Byte>, Option<Error>)
    requires g.Segmented? ==> g.state.Readable()
    requires g.Unranged? || g.AsIs? || g.WholeFile? ==> g.reply.Reply?
  {
    match g
    case Failed(error) => ([], Some(error))
    case Unranged(reply) => RunBody(reply.body, 0, wants)
    case AsIs(reply) => RunBody(reply.body, 0, wants)
    case WholeFile(reply, _) => RunBody(reply.body, 0, wants)
    case Segmented(s, _) =>
      var o := Run(server, seg, s, wants);
      (o.bytes, o.error)
  }

  /** The caller sees a 200 response for the given version: its length, and its bytes. */
  ghost predicate ShownAs(server: Server, seg: nat, g: Got, version: seq<Byte>) {
    && !g.Failed?
    && (g.Segmented? ==> g.state.Readable())
    && (!g.Segmented? ==> g.reply.Reply?)
    && (g.WholeFile? ==> g.length == |version|)
    && (g.Segmented? && g.contentLength.Some? ==> g.contentLength.value == |version|)
    && forall wants: seq<nat> ::
         var (bytes, error) := Stream(server, seg, g, wants);
         bytes <= version && (error == Some(Eof) ==> bytes == version)
  }

  lemma SegmentedShown(server: Server, seg: nat, g: Got, versions: Versions)
    requires Honest(server, versions) && g.Segmented? && Reading(g.state, versions)
    requires g.state.reader.Open? && g.state.bytesRead == 0
    requires g.contentLength.Some? ==> g.contentLength == g.state.bytesTotal
    ensures ShownAs(server, seg, g, versions[g.state.etag])
  {
    var version := versions[g.state.etag];
    forall wants: seq<nat> ensures
        var (bytes, error) := Stream(server, seg, g, wants);
        bytes <= version && (error == Some(Eof) ==> bytes == version)
    {
      RunDeliversOneVersion(server, seg, g.state, wants, versions);
      assert Continues(g.state, Run(server, seg, g.state, wants), versions);
    }
  }

  lemma BodyShown(server: Server, seg: nat, g: Got, version: seq<Byte>)
    requires (g.AsIs? || g.Unranged? || g.WholeFile?) && g.reply.Reply?
    requires g.reply.body.data <= version && (!g.reply.body.broken ==> g.reply.body.data == version)
    requires g.WholeFile? ==> g.length == |version|
    ensures ShownAs(server, seg, g, version)
  {
    var body := g.reply.body;
    forall wants: seq<nat> ensures
        var (bytes, error) := Stream(server, seg, g, wants);
        bytes <= version && (error == Some(Eof) ==> bytes == version)
    {
      assert RunBody(body, 0, wants).0 <= body.data[0..] == body.data;
    }
  }

  /** Whatever the caller sees as a 200 is one version of the resource. */
  ghost predicate Faithful(server: Server, seg: nat, g: Got, versions: Versions) {
    && (g.WholeFile? || ((g.AsIs? || g.Unranged?) && g.reply.Reply? && g.reply.status == OK) ==>
          g.reply.Reply? && g.reply.etag in versions && ShownAs(server, seg, g, versions[g.reply.etag]))
    && (g.Segmented? ==>
          && Reading(g.state, versions) && g.state.reader.Open? && g.state.bytesRead == 0
          && ShownAs(server, seg, g, versions[g.state.etag]))
  }

  /** How `EnhancedGet` passes a first response on that starts at offset 0. */
  lemma PresentedFaithfully(server: Server, seg: nat, s: State, chunk: Chunk, plain: Reply, versions: Versions)
    requires Honest(server, versions) && HonestReply(versions, plain)
    requires chunk.Chunk? && chunk.reply.Reply? && HonestReply(versions, chunk.reply)
    requires chunk.start == 0 == s.bytesRead && s.etag == chunk.reply.etag
    requires HasContent(chunk.reply) ==> s.etag in versions && ChunkOf(chunk, versions[s.etag])
    requires chunk.reply.status == PARTIAL_CONTENT ==> |s.log| > 0 && s.bytesTotal == Some(|versions[s.etag]|)
    ensures Faithful(server, seg, Present(s, chunk, plain), versions)
    ensures chunk.reply.status == 416 && plain.Reply? ==> Present(s, chunk, plain) == Unranged(plain)
    ensures chunk.reply.status !in {206, 416} ==> Present(s, chunk, plain) == AsIs(chunk.reply)
  {
    var g := Present(s, chunk, plain);
    if g.Segmented? {
      assert versions[s.etag][0..] == versions[s.etag];
      SegmentedShown(server, seg, g, versions);
    } else if g.WholeFile? || (!g.Failed? && g.reply.status == OK) {
      var version := versions[g.reply.etag];
      assert version[0..] == version;
      BodyShown(server, seg, g, version);
    }
  }

  /**
   * `EnhancedGet` refines a plain GET: whether the server ignores ranges (200), refuses
   * them (416 and a second, unranged request), sends the file in one part or in many,
   * the caller reads one version of the resource and is told its length. That the
   * first part starts at offset 0 is not checked by the code, hence the assumption. The
   * version is really shown: by the first response if that has it, and after a 416 by the
   * second one.
   */
  lemma EnhancedGetRefinesGet(server: Server, plain: Reply, seg: nat, versions: Versions)
    requires Honest(server, versions) && HonestReply(versions, plain)
    requires FirstPartAtZero(server, seg)
    ensures var g := EnhancedGet(server, plain, seg);
      && (g.AsIs? ==> g.reply == server(0, NextRange(seg, START)))
      && (g.Unranged? ==> g.reply == plain)
      && Faithful(server, seg, g, versions)
    ensures var reply, g := server(0, NextRange(seg, START)), EnhancedGet(server, plain, seg);
      && (reply.Reply? && reply.status == 416 && plain.Reply? ==> g.Unranged?)
      && (reply.Reply? && reply.status == OK ==> g.AsIs?)
      && (HasContent(reply) && reply.status == 206 && reply.contentRange.Some? && |versions[reply.etag]| <= MAX_INT64
          ==> g.WholeFile? || g.Segmented?)
  {
    var (s, chunk) := GetNextChunk(server, seg, START);
    if chunk.Chunk? {
      AcceptedChunk(server, seg, START, versions);
      assert HonestReply(versions, server(0, NextRange(seg, START)));
      PresentedFaithfully(server, seg, s, chunk, plain, versions);
    }
  }

  /** The part of the first response holds the whole file, which is not empty. */
  predicate HoldsAll(range: Range) {
    range.total.Some? && 0 < range.total.value == range.stop - range.start + 1
  }

  /**
   * What becomes of the first response, by its status: after a 416 (as for an empty
   * resource) the answer to a request without a range is passed on, whatever it is; a 206
   * is shown as it is if it holds the whole file, and continued in segments otherwise;
   * anything else is passed on unchanged.
   */
  lemma FirstResponseDecides(server: Server, plain: Reply, seg: nat)
    ensures var reply, g := server(0, NextRange(seg, START)), EnhancedGet(server, plain, seg);
      && (0 < seg < U64 ==> NextRange(seg, START) == ByteRange(0, seg - 1))
      && (reply.TransportError? ==> g == Failed(Transport))
      && (reply.Reply? && reply.status == 416 && plain.Reply? ==> g == Unranged(plain))
      && (reply.Reply? && reply.status == 416 && plain.TransportError? ==> g == Failed(Transport))
      && (reply.Reply? && reply.status !in {206, 416} ==> g == AsIs(reply))
      && (reply.Reply? && reply.status == 206 && reply.contentRange.None? ==> g == Failed(MalformedContentRange))
  {
  }

  /** The same for a 206 with a Content-Range. */
  lemma FirstPartIsShown(server: Server, plain: Reply, seg: nat)
    requires var reply := server(0, NextRange(seg, START));
      reply.Reply? && reply.status == 206 && reply.contentRange.Some?
    requires server(0, NextRange(seg, START)).contentRange.value.total.Some? ==>
      server(0, NextRange(seg, START)).contentRange.value.total.value < U64
    ensures var reply, g := server(0, NextRange(seg, START)), EnhancedGet(server, plain, seg);
      var range := reply.contentRange.value;
      && (range.total.None? <==> g == Failed(NilDereference))
      && (HoldsAll(range) <==> g == WholeFile(reply, range.stop - range.start + 1))
      && (range.total.Some? && !HoldsAll(range) && range.total.value > MAX_INT64 <==> g == Failed(TotalTooLarge))
      && (range.total.Some? && !HoldsAll(range) && range.total.value <= MAX_INT64 <==> g.Segmented?)
      && (g.Segmented? ==>
            && g.contentLength == (if range.total == Some(0) then None else range.total)
            && g.state.etag == reply.etag && g.state.bytesRead == 0 && g.state.bytesTotal == range.total
            && g.state.reader == Open(reply.body, 0))
  {
  }

  ghost predicate FirstPartAtZero(server: Server, seg: nat) {
    var chunk := GetNextChunk(server, seg, START).1;
    chunk.Chunk? ==> chunk.start == 0
  }

  // ----- what the checks do not cover -----

  /**
   * A response that is not a 206 is taken as the next part exactly when nothing has been
   * delivered yet (its Content-Range counts as offset 0) and its Etag is not refused. A
   * server without Etags can thus have an error page delivered as file contents.
   */
  lemma PageTakenForContent(server: Server, seg: nat, s: State)
    requires var reply := server(|s.log|, NextRange(seg, s));
      reply.Reply? && reply.status != PARTIAL_CONTENT
    ensures var reply := server(|s.log|, NextRange(seg, s));
      var (s1, error) := NextChunk(server, seg, s);
      (error.None? && s1.reader == Open(reply.body, 0)) <==>
        s.bytesRead == 0 && (s.etag == "" || s.etag == reply.etag) && s.bytesTotal != Some(0)
  {
  }

  /**
   * A 206 is taken as the next part exactly if its Etag is not refused, its Content-Range
   * can be read, begins where the last part has ended, and repeats the total.
   */
  lemma PartTakenIff(server: Server, seg: nat, s: State)
    requires var reply := server(|s.log|, NextRange(seg, s)); reply.Reply? && reply.status == 206
    requires s.bytesTotal != Some(s.bytesRead)
    ensures var reply, (s1, error) := server(|s.log|, NextRange(seg, s)), NextChunk(server, seg, s);
      && (error.None? <==>
            && (s.etag == "" || s.etag == reply.etag)
            && reply.contentRange.Some? && reply.contentRange.value.start == s.bytesRead
            && (s.bytesTotal.None? || s.bytesTotal == reply.contentRange.value.total))
      && (error.None? ==> s1.reader == Open(reply.body, 0) && s1.etag == reply.etag
                          && s1.bytesTotal == reply.contentRange.value.total)
  {
  }

  /** A body that is not broken ends with an error exactly if it cannot be closed, or what comes next fails. */
  lemma RegularEnd(server: Server, seg: nat, s: State)
    requires s.reader.Open? && !s.reader.body.broken && s.reader.pos == |s.reader.body.data|
    ensures var o := Read(server, seg, s, 0);
      && o.bytes == [] && (o.error == Some(CloseError) <==> s.reader.body.closeFails)
      && (!s.reader.body.closeFails && s.bytesTotal == Some(s.bytesRead) ==>
            o.error == Some(Eof) && o.state.log == s.log)
      && (!s.reader.body.closeFails && s.bytesTotal != Some(s.bytesRead) ==> o.state.log == s.log + [NextRange(seg, s)])
  {
    assert NextRange(seg, s.(reader := NoReader)) == NextRange(seg, s);
  }

  /**
   * After an error the downloader reports `io.EOF` on the next `Read` exactly when the
   * body before the error had ended regularly, even if bytes are missing. Hence all
   * claims about the stream stop at the first error.
   */
  lemma EofAfterAnError(server: Server, seg: nat, s: State, want: nat)
    requires s.Readable() && s.reader.Open? && Read(server, seg, s, want).error.Some?
    ensures var o := Read(server, seg, s, want);
      && (o.state.reader.NoReader? <==> !s.reader.body.broken)
      && (!s.reader.body.broken <==>
            forall again: nat :: Read(server, seg, o.state, again) == Outcome(o.state, [], Some(Eof)))
  {
    var o := Read(server, seg, s, want);
    if s.reader.body.broken {
      ReadCounts(server, seg, o.state);
    }
  }

  /**
   * A read at the broken end of a body, or after a restart that has failed, always counts
   * as one more read error. It sends a request exactly if it is granted a restart and
   * bytes are missing, and then one.
   */
  lemma ReadCounts(server: Server, seg: nat, s: State)
    requires s.reader.Closed?
      || (s.reader.Open? && s.reader.body.broken && s.reader.pos == |s.reader.body.data|)
    ensures var s1 := Read(server, seg, s, 0).state;
      && s1.retries == ShouldRetry(s.retries, s.bytesRead).0 && s1.retries.total == s.retries.total + 1
      && (Read(server, seg, s, 0).error == Some(BodyError) <==> !ShouldRetry(s.retries, s.bytesRead).1)
      && s1.log == s.log +
          if ShouldRetry(s.retries, s.bytesRead).1 && s.bytesTotal != Some(s.bytesRead) then [NextRange(seg, s)]
          else []
  {
    var (r, _) := ShouldRetry(s.retries, s.bytesRead);
    assert NextRange(seg, s.(retries := r, reader := Closed)) == NextRange(seg, s);
  }

  /** A read with room in the buffer delivers something, unless the body is at its end. */
  ghost predicate LivelyBody(body: Body) {
    forall pos: nat, want: nat | want > 0 :: body.cut(pos, want).0 > 0
  }

  lemma OneByte(server: Server, seg: nat, s: State)
    requires s.Readable() && s.reader.Open? && s.reader.pos < |s.reader.body.data| && LivelyBody(s.reader.body)
    ensures var o := Read(server, seg, s, 1);
      && o.bytes == [s.reader.body.data[s.reader.pos]]
      && (s.reader.pos + 1 < |s.reader.body.data| ==> o.error.None? && o.state == Advance(s, 1))
  {
    assert s.reader.body.cut(s.reader.pos, 1).0 > 0;
  }

  lemma RunOnes(server: Server, seg: nat, s: State, k: nat)
    requires s.Readable() && k > 0
    ensures var o, all := Read(server, seg, s, 1), Run(server, seg, s, Ones(k));
      && (k == 1 ==> all.bytes == o.bytes)
      && (o.error.None? ==> all.bytes == o.bytes + Run(server, seg, o.state, Ones(k - 1)).bytes)
  {
    assert Ones(k)[1..] == Ones(k - 1) && Ones(k)[0] == 1;
    if k == 1 {
      assert Ones(0) == [];
    }
  }

  /** One byte at a time, the first body is delivered before anything else. */
  lemma {:induction false} FirstBodyComesFirst(server: Server, seg: nat, s: State, k: nat)
    requires s.Readable() && s.reader.Open? && |s.reader.body.data| - s.reader.pos == k && LivelyBody(s.reader.body)
    ensures Run(server, seg, s, Ones(k)).bytes == s.reader.body.data[s.reader.pos..]
    decreases k
  {
    var data, pos := s.reader.body.data, s.reader.pos;
    if k == 0 {
      assert Ones(0) == [] && data[pos..] == [];
    } else {
      OneByte(server, seg, s);
      RunOnes(server, seg, s, k);
      assert data[pos..] == [data[pos]] + data[pos + 1..];
      if k > 1 {
        FirstBodyComesFirst(server, seg, Advance(s, 1), k - 1);
      }
    }
  }

  function Ones(k: nat): seq<nat> {
    seq(k, _ => 1)
  }

  /**
   * The offset of the first part is not checked, and it does not matter exactly if the
   * bytes that come first are the first bytes of the version: then the caller reads that
   * version, and otherwise some caller reads something else. A first part that starts at
   * offset 0 is of the good kind.
   */
  lemma FirstPartDecides(server: Server, plain: Reply, seg: nat, versions: Versions)
    requires Honest(server, versions) && EnhancedGet(server, plain, seg).Segmented?
    requires LivelyBody(EnhancedGet(server, plain, seg).state.reader.body)
    ensures var g := EnhancedGet(server, plain, seg);
      && g.state.etag in versions
      && (ShownAs(server, seg, g, versions[g.state.etag]) <==> g.state.reader.body.data <= versions[g.state.etag])
      && (FirstPartAtZero(server, seg) ==> g.state.reader.body.data <= versions[g.state.etag])
  {
    var g, chunk := EnhancedGet(server, plain, seg), GetNextChunk(server, seg, START).1;
    AcceptedChunk(server, seg, START, versions);
    var data, version := g.state.reader.body.data, versions[g.state.etag];
    assert version[0..] == version && data[0..] == data;
    if data <= version {
      SegmentedShown(server, seg, g, versions);
    } else {
      FirstBodyComesFirst(server, seg, g.state, |data|);
      assert Stream(server, seg, g, Ones(|data|)).0 == data;
    }
  }

  /**
   * The offset of the first part is not checked. Here the resource is [1, 2], every
   * response is truthful, and the caller reads [2, 2] followed by `io.EOF`.
   */
  lemma FirstOffsetIsUnchecked(server: Server, plain: Reply, cut: (nat, nat) -> (nat, bool))
    requires forall pos: nat, want: nat :: cut(pos, want) == (want, true)
    requires forall k: nat, range: ByteRange ::
      server(k, range) == Reply(PARTIAL_CONTENT, "v", Some(Range(1, 1, Some(2))), Body([2], false, false, cut))
    ensures Honest(server, map["v" := [1, 2]])
    ensures var g := EnhancedGet(server, plain, 1);
      g.Segmented? && Stream(server, 1, g, [1, 1]) == ([2, 2], Some(Eof))
  {
    var g := EnhancedGet(server, plain, 1);
    assert [1, 2][1..] == [2];
    var o1 := Read(server, 1, g.state, 1);
    assert o1.bytes == [2] && o1.error.None? && o1.state.reader.Open?;
    var o2 := Read(server, 1, o1.state, 1);
    assert o2.bytes == [2] && o2.error == Some(Eof);
    var wants: seq<nat> := [1, 1];
    assert wants[1..] == [1];
    assert Run(server, 1, o1.state, wants[1..]) == o2;
    assert Run(server, 1, g.state, wants) == Outcome(o2.state, o1.bytes + o2.bytes, o2.error);
    assert o1.bytes + o2.bytes == [2, 2];
  }
}
