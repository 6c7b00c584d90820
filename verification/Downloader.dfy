/**
 * The downloader as the source has it: an object whose methods update its fields, and
 * a reader around it that fills the caller's buffer in place. Every method is proved
 * against the function of the same name in module `Download`.
 */
module Downloader {
  import opened Base
  import opened ContentRange
  import D = Download
  import opened DownloadCorrect
  import opened DownloadBuffers
  import opened DownloadLimits

  type Byte = D.Byte

  /** A response as it arrives, with the text of its Content-Range header. */
  datatype Response =
    | NoResponse
    | Response(status: nat, etag: string, contentRange: string, body: D.Body)

  type Wire = (nat, D.ByteRange) -> Response

  function Parsed(r: Response): D.Reply {
    match r
    case NoResponse => D.TransportError
    case Response(status, etag, contentRange, body) => D.Reply(status, etag, ParseContentRange(contentRange), body)
  }

  /** The header of a response counts for what it denotes (section 4.2 of RFC 7233), and the rest stays as it is. */
  lemma ParsedTells(r: Response, range: Range)
    requires r.Response?
    ensures Parsed(r).Reply? && Parsed(r).status == r.status && Parsed(r).etag == r.etag && Parsed(r).body == r.body
    ensures Parsed(r).contentRange == Some(range) <==>
      exists a, b, c :: Captures(r.contentRange, a, b, c) && Denotes(a, b, c, range)
  {
    AcceptsExactly(r.contentRange, range);
  }

  /** The server behind the wire, seen through `ParseContentRange`. */
  function ServerOf(wire: Wire): D.Server {
    (k: nat, range: D.ByteRange) => Parsed(wire(k, range))
  }

  class Downloader {
    const server: D.Server
    const segmentBytes: nat
    var etag: string
    var bytesRead: nat
    var bytesTotal: Option<nat>
    var reader: D.Reader
    var lastErrorAtBytesRead: nat
    var lastErrorRetryCount: nat
    var totalRetryCount: nat
    var requests: seq<D.ByteRange>
    ghost var restarts: seq<nat>

    ghost function Snapshot(): D.State
      reads this
    {
      var retries := D.Retries(lastErrorAtBytesRead, lastErrorRetryCount, totalRetryCount, restarts);
      D.State(etag, bytesRead, bytesTotal, reader, retries, requests)
    }

    constructor (server: D.Server, segmentBytes: nat)
      ensures this.server == server && this.segmentBytes == segmentBytes
      ensures Snapshot() == D.START
    {
      this.server, this.segmentBytes := server, segmentBytes;
      etag, bytesRead, bytesTotal, reader := "", 0, None, D.NoReader;
      lastErrorAtBytesRead, lastErrorRetryCount, totalRetryCount := 0, 0, 0;
      requests, restarts := [], [];
    }

    method GetNextChunk() returns (chunk: D.Chunk)
      modifies this
      ensures (Snapshot(), chunk) == D.GetNextChunk(server, segmentBytes, old(Snapshot()))
    {
      var start := bytesRead;
      var end := Wrap(start + segmentBytes);
      if bytesTotal.Some? && bytesTotal.value > 0 && end > bytesTotal.value {
        end := bytesTotal.value;
      }
      var range := D.ByteRange(start, if end == 0 then U64 - 1 else end - 1);
      var reply := server(|requests|, range);
      requests := requests + [range];
      if reply.TransportError? {
        return D.Refused(D.Transport);
      }
      if etag == "" {
        etag := reply.etag;
      } else if etag != reply.etag {
        return D.Refused(D.EtagChanged);
      }
      if reply.status != D.PARTIAL_CONTENT {
        return D.Chunk(reply, 0, 0);
      }
      if reply.contentRange.None? {
        return D.Refused(D.MalformedContentRange);
      }
      var Range(first, stop, total) := reply.contentRange.value;
      var length := if stop - first == U64 - 1 then 0 else stop - first + 1;
      if bytesTotal.None? {
        bytesTotal := total;
      } else if total.None? {
        return D.Refused(D.NilDereference);
      } else if bytesTotal != total {
        return D.Refused(D.TotalChanged);
      }
      return D.Chunk(reply, first, length);
    }

    method ShouldRetry() returns (retry: bool)
      modifies this`lastErrorAtBytesRead, this`lastErrorRetryCount, this`totalRetryCount, this`restarts
      ensures (Snapshot().retries, retry) == D.ShouldRetry(old(Snapshot()).retries, bytesRead)
    {
      totalRetryCount := totalRetryCount + 1;
      if totalRetryCount > D.MAX_TOTAL_RETRY {
        return false;
      }
      if lastErrorAtBytesRead != bytesRead {
        lastErrorAtBytesRead := bytesRead;
        lastErrorRetryCount := 0;
        restarts := restarts + [bytesRead];
        return true;
      }
      lastErrorRetryCount := lastErrorRetryCount + 1;
      if lastErrorRetryCount > D.MAX_RETRY {
        return false;
      }
      restarts := restarts + [bytesRead];
      return true;
    }

    /** The part of `Read` that begins with the question whether there is a next chunk. */
    method NextChunk() returns (error: Option<D.Error>)
      modifies this
      ensures (Snapshot(), error) == D.NextChunk(server, segmentBytes, old(Snapshot()))
    {
      if bytesTotal == Some(bytesRead) {
        return Some(D.Eof);
      }
      var chunk := GetNextChunk();
      if chunk.Refused? {
        return Some(chunk.error);
      }
      if chunk.start != bytesRead {
        return Some(D.WrongOffset);
      }
      reader := D.Open(chunk.reply.body, 0);
      return None;
    }

    /** `d.Reader.Read(buf[lo..])`, and the count that `Read` adds to `BytesRead`. */
    method ReadBody(buf: array<Byte>, lo: nat) returns (n: nat, end: bool)
      requires lo <= buf.Length && Snapshot().Readable() && reader.Open?
      modifies this`bytesRead, this`reader, buf
      ensures (n, end) == old(reader).body.Deliver(old(reader).pos, buf.Length - lo)
      ensures Snapshot() == D.Advance(old(Snapshot()), n)
      ensures buf[lo..lo + n] == reader.body.data[reader.pos - n..reader.pos]
      ensures forall i | 0 <= i < lo || lo + n <= i < buf.Length :: buf[i] == old(buf[i])
    {
      var body, pos := reader.body, reader.pos;
      var (count, ended) := body.Deliver(pos, buf.Length - lo);
      n, end := count, ended;
      forall i | 0 <= i < n {
        buf[lo + i] := body.data[pos + i];
      }
      bytesRead := bytesRead + n;
      reader := D.Open(body, pos + n);
    }

    /** `Read(buf[lo..])` */
    method Read(buf: array<Byte>, lo: nat) returns (n: nat, error: Option<D.Error>)
      requires lo <= buf.Length && Snapshot().Readable()
      modifies this, buf
      ensures lo + n <= buf.Length
      ensures forall i | 0 <= i < lo || lo + n <= i < buf.Length :: buf[i] == old(buf[i])
      ensures D.Outcome(Snapshot(), buf[lo..lo + n], error)
        == D.Read(server, segmentBytes, old(Snapshot()), buf.Length - lo)
    {
      n := 0;
      if reader.NoReader? {
        return 0, Some(D.Eof);
      }
      if reader.Open? {
        var end;
        n, end := ReadBody(buf, lo);
        if !end {
          return n, None;
        }
      }
      error := AfterBody();
    }

    /** The part of `Read` behind `d.Reader.Read`, when that has reported an error. */
    method AfterBody() returns (error: Option<D.Error>)
      requires !reader.NoReader?
      modifies this
      ensures (Snapshot(), error) == D.AfterBody(server, segmentBytes, old(Snapshot()))
    {
      if reader.Open? && !reader.body.broken {
        var closeFails := reader.body.closeFails;
        reader := D.NoReader;
        if closeFails {
          return Some(D.CloseError);
        }
      } else {
        var retry := ShouldRetry();
        if !retry {
          return Some(D.BodyError);
        }
        reader := D.Closed;
      }
      error := NextChunk();
    }
  }

  // ----- FullReader -----

  /** The current body has been delivered and will end without an error. */
  predicate Spent(s: D.State) {
    s.reader.Open? && !s.reader.body.broken && s.reader.pos == |s.reader.body.data|
  }

  function Budget(s: D.State): nat {
    if s.retries.total < D.MAX_TOTAL_RETRY then D.MAX_TOTAL_RETRY - s.retries.total else 0
  }

  /**
   * What can be taken for the next part of the file is not empty: a response to a later
   * request that is a 206, or that answers a restart at offset 0.
   */
  ghost predicate PartsAreNotEmpty(server: D.Server) {
    forall k: nat, range: D.ByteRange | k > 0 :: NotEmpty(range, server(k, range))
  }

  predicate NotEmpty(range: D.ByteRange, reply: D.Reply) {
    reply.Reply? && (reply.status == D.PARTIAL_CONTENT || range.first == 0) && !reply.body.broken ==>
      reply.body.data != []
  }

  /** Reads make progress: no response body stalls, and no part is empty. */
  ghost predicate Brisk(server: D.Server) {
    Lively(server) && PartsAreNotEmpty(server)
  }

  /** The downloader has sent its first request, and its current body does not stall. */
  ghost predicate Underway(s: D.State) {
    s.Readable() && |s.log| > 0 && (s.reader.Open? ==> LivelyBody(s.reader.body))
  }

  lemma NextChunkIsFresh(server: D.Server, seg: nat, s: D.State)
    requires Brisk(server) && Underway(s) && !s.reader.Open?
    ensures var (s1, error) := D.NextChunk(server, seg, s);
      && Underway(s1) && s1.retries == s.retries
      && (error.None? ==> !Spent(s1))
  {
    var range := D.NextRange(seg, s);
    var reply := server(|s.log|, range);
    assert NotEmpty(range, reply);
    assert reply.Reply? ==> LivelyBody(reply.body);
  }

  /** The same for all that follows the end of a body: it uses up a retry, or the body was spent. */
  lemma AfterBodyDecreases(server: D.Server, seg: nat, s: D.State)
    requires Brisk(server) && Underway(s) && !s.reader.NoReader?
    requires s.reader.Open? ==> s.reader.pos == |s.reader.body.data|
    ensures var (s1, error) := D.AfterBody(server, seg, s);
      Underway(s1) && (error.None? ==> Decreases(s, s1))
  {
    if s.reader.Closed? || s.reader.body.broken {
      var (r, retry) := D.ShouldRetry(s.retries, s.bytesRead);
      if retry {
        NextChunkIsFresh(server, seg, s.(retries := r, reader := D.Closed));
      }
    } else if !s.reader.body.closeFails {
      NextChunkIsFresh(server, seg, s.(reader := D.NoReader));
    }
  }

  /** Fewer retries are left, or a spent body has been replaced by one that is not. */
  predicate Decreases(s: D.State, s1: D.State) {
    Budget(s1) < Budget(s) || (Budget(s1) == Budget(s) && Spent(s) && !Spent(s1))
  }

  /** A successful read delivers a byte, uses up a retry, or replaces a spent body by one that is not. */
  lemma ReadDecreases(server: D.Server, seg: nat, s: D.State, want: nat)
    requires Brisk(server) && want > 0 && Underway(s)
    ensures var o := D.Read(server, seg, s, want);
      Underway(o.state) && (o.error.None? && o.bytes == [] ==> Decreases(s, o.state))
  {
    if s.reader.Closed? {
      AfterBodyDecreases(server, seg, s);
    } else if s.reader.Open? {
      var (n, end) := s.reader.body.Deliver(s.reader.pos, want);
      assert s.reader.body.cut(s.reader.pos, want).0 > 0;
      if end {
        AfterBodyDecreases(server, seg, D.Advance(s, n));
      }
    }
  }

  /** One more read at the end of a run. */
  lemma {:induction false} RunSnoc(after: After, s: D.State, wants: seq<nat>, want: nat)
    requires Tame(after) && s.Readable() && RunWith(after, s, wants).error.None?
    ensures var o := RunWith(after, s, wants);
      RunWith(after, s, wants + [want]) == Prepend(o.bytes, ReadWith(after, o.state, want))
    decreases wants
  {
    var all, o := wants + [want], ReadWith(after, s, if wants == [] then want else wants[0]);
    if wants == [] {
      assert all[1..] == [];
      assert o.error.None? ==> Prepend(o.bytes, RunWith(after, o.state, [])) == o == Prepend([], o);
      assert Prepend([], o) == o;
    } else {
      assert all[1..] == wants[1..] + [want];
      RunSnoc(after, o.state, wants[1..], want);
      var rest := RunWith(after, o.state, wants[1..]);
      PrependTwice(o.bytes, rest.bytes, ReadWith(after, rest.state, want));
    }
  }

  lemma ExtendRun(after: After, s: D.State, wants: seq<nat>, o: D.Outcome, want: nat, last: D.Outcome)
    requires Tame(after) && s.Readable() && RunWith(after, s, wants) == o && o.error.None?
    requires ReadWith(after, o.state, want) == last
    ensures RunWith(after, s, wants + [want]) == D.Outcome(last.state, o.bytes + last.bytes, last.error)
  {
    RunSnoc(after, s, wants, want);
  }

  class FullReader {
    const base: Downloader
    ghost const after: After

    constructor (base: Downloader)
      ensures this.base == base && Valid()
    {
      this.base := base;
      this.after := AfterOf(base.server, base.segmentBytes);
    }

    ghost predicate Valid() {
      IsAfterBody(after, base.server, base.segmentBytes)
    }

    ghost predicate Serves(server: D.Server, segmentBytes: nat, s: D.State)
      reads base
    {
      Valid() && base.server == server && base.segmentBytes == segmentBytes && base.Snapshot() == s
    }

    /**
     * Fills the buffer from the start: a short count always comes with an error, and
     * the bytes are those of successive reads of the downloader (with the buffer sizes
     * `wants`; by `RunIsRunWith`, that is `Download.Run`). The loop terminates if reads
     * make progress, whatever the server sends.
     */
    method Read(buf: array<Byte>)
      returns (numRead: nat, error: Option<D.Error>, ghost wants: seq<nat>)
      requires Valid() && Brisk(base.server) && Underway(base.Snapshot())
      modifies base, buf
      ensures Underway(base.Snapshot())
      ensures numRead <= buf.Length && (error.None? ==> numRead == buf.Length)
      ensures forall i | numRead <= i < buf.Length :: buf[i] == old(buf[i])
      ensures RunWith(after, old(base.Snapshot()), wants) == D.Outcome(base.Snapshot(), buf[..numRead], error)
    {
      ghost var s, delivered := base.Snapshot(), [];
      numRead, error, wants := 0, None, [];
      while numRead < buf.Length
        invariant numRead <= buf.Length && delivered == buf[..numRead] && error.None?
        invariant Underway(base.Snapshot())
        invariant forall i | numRead <= i < buf.Length :: buf[i] == old(buf[i])
        invariant RunWith(after, s, wants) == D.Outcome(base.Snapshot(), delivered, None)
        decreases buf.Length - numRead, Budget(base.Snapshot()), if Spent(base.Snapshot()) then 1 else 0
      {
        ghost var want: nat := buf.Length - numRead;
        ghost var before, last := D.Outcome(base.Snapshot(), delivered, None), D.Outcome(base.Snapshot(), [], None);
        var n;
        n, error, last := ReadOnce(buf, numRead);
        ExtendRun(after, s, wants, before, want, last);
        delivered, wants := delivered + last.bytes, wants + [want];
        numRead := numRead + n;
        if error.Some? {
          return;
        }
      }
    }

    /** The loop body of `Read`. */
    method ReadOnce(buf: array<Byte>, lo: nat)
      returns (n: nat, error: Option<D.Error>, ghost last: D.Outcome)
      requires Valid() && Brisk(base.server) && lo < buf.Length && Underway(base.Snapshot())
      modifies base, buf
      ensures Underway(base.Snapshot())
      ensures lo + n <= buf.Length
      ensures forall i | 0 <= i < lo || lo + n <= i < buf.Length :: buf[i] == old(buf[i])
      ensures last == ReadWith(after, old(base.Snapshot()), buf.Length - lo)
      ensures last.state == base.Snapshot() && last.bytes == buf[lo..lo + n] && last.error == error
      ensures buf[..lo + n] == old(buf[..lo]) + last.bytes
      ensures error.None? && n == 0 ==> Decreases(old(base.Snapshot()), base.Snapshot())
    {
      ReadDecreases(base.server, base.segmentBytes, base.Snapshot(), buf.Length - lo);
      ReadIsReadWith(after, base.server, base.segmentBytes, base.Snapshot(), buf.Length - lo);
      n, error := base.Read(buf, lo);
      last := D.Outcome(base.Snapshot(), buf[lo..lo + n], error);
      assert buf[..lo] == old(buf[..lo]) && buf[..lo + n] == buf[..lo] + buf[lo..lo + n];
    }
  }

  // ----- EnhancedGet -----

  /** `EnhancedGet`; for a segmented body, `body` is the reader installed in the response. */
  method EnhancedGet(wire: Wire, plain: Response, segmentBytes: nat) returns (got: D.Got, body: FullReader?)
    ensures got == D.EnhancedGet(ServerOf(wire), Parsed(plain), segmentBytes)
    ensures body != null <==> got.Segmented?
    ensures body != null ==> fresh(body) && fresh(body.base) && body.Serves(ServerOf(wire), segmentBytes, got.state)
  {
    got, body := EnhancedGetFrom(ServerOf(wire), Parsed(plain), segmentBytes);
  }

  method EnhancedGetFrom(server: D.Server, plain: D.Reply, segmentBytes: nat) returns (got: D.Got, body: FullReader?)
    ensures got == D.EnhancedGet(server, plain, segmentBytes)
    ensures body != null <==> got.Segmented?
    ensures body != null ==> fresh(body) && fresh(body.base) && body.Serves(server, segmentBytes, got.state)
  {
    body := null;
    var d := new Downloader(server, segmentBytes);
    var chunk := d.GetNextChunk();
    if chunk.Refused? {
      return D.Failed(chunk.error), null;
    }
    if chunk.reply.status == D.RANGE_NOT_SATISFIABLE {
      return if plain.TransportError? then D.Failed(D.Transport) else D.Unranged(plain), null;
    }
    if chunk.reply.status != D.PARTIAL_CONTENT {
      return D.AsIs(chunk.reply), null;
    }
    if d.bytesTotal.None? {
      return D.Failed(D.NilDereference), null;
    }
    var total := d.bytesTotal.value;
    if total > 0 && total == chunk.length {
      return D.WholeFile(chunk.reply, chunk.length), null;
    }
    d.reader := D.Open(chunk.reply.body, 0);
    if total > MAX_INT64 {
      return D.Failed(D.TotalTooLarge), null;
    }
    body := new FullReader(d);
    got := D.Segmented(
      D.State(d.etag, d.bytesRead, d.bytesTotal, d.reader, D.START.retries, d.requests),
      if total > 0 then Some(total) else None);
  }
}
