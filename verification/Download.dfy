/**
 * The segmented download of `EnhancedGet`, on values: one function for every function
 * of the source, over the fields of `downloader`. The server is an arbitrary function
 * that answers the k-th range request, so a property proved for every `Server` holds
 * whatever the server does between two requests.
 */
module Download {
  import opened Base
  import opened ContentRange

  type Byte = b: int | 0 <= b < 256

  /**
   * A response body. `Read` delivers `data` piece by piece and then reports a read
   * error (`broken`) or the end of the body. How many bytes one call delivers, and
   * whether the end is reported together with the last bytes, is up to `cut`.
   */
  datatype Body = Body(data: seq<Byte>, broken: bool, closeFails: bool, cut: (nat, nat) -> (nat, bool)) {

    /** `Read` on a buffer of `want` bytes: the byte count, and whether the end is reported. */
    function Deliver(pos: nat, want: nat): (r: (nat, bool))
      requires pos <= |data|
      ensures r.0 <= want && pos + r.0 <= |data| && (r.1 ==> pos + r.0 == |data|)
    {
      var n := Min(cut(pos, want).0, Min(want, |data| - pos));
      (n, pos + n == |data| && (n == 0 || cut(pos, want).1))
    }
  }

  /** A response; its Content-Range header stands as what `ParseContentRange` makes of it. */
  datatype Reply =
    | TransportError
    | Reply(status: nat, etag: string, contentRange: Option<Range>, body: Body)

  /** The inclusive byte range of a request. */
  datatype ByteRange = ByteRange(first: nat, last: nat)

  type Server = (nat, ByteRange) -> Reply

  datatype Error =
    | Eof
    | BodyError
    | CloseError
    | Transport
    | EtagChanged
    | MalformedContentRange
    | TotalChanged
    | WrongOffset
    | TotalTooLarge
    | NilDereference

  /** `downloader.Reader`: nil, an open response body, or a body closed after a read error. */
  datatype Reader = NoReader | Closed | Open(body: Body, pos: nat)

  /** The retry fields of `downloader`, and the offsets at which a restart was granted. */
  datatype Retries = Retries(
    lastErrorAt: nat,
    lastErrorCount: nat,
    total: nat,
    restarts: seq<nat>)

  /** The fields of `downloader`, and the range requests sent so far (`log`). */
  datatype State = State(
    etag: string,
    bytesRead: nat,
    bytesTotal: Option<nat>,
    reader: Reader,
    retries: Retries,
    log: seq<ByteRange>)
  {
    predicate Readable() {
      reader.Open? ==> reader.pos <= |reader.body.data|
    }
  }

  const START: State := State("", 0, None, NoReader, Retries(0, 0, 0, []), [])

  const MAX_TOTAL_RETRY: nat := 10
  const MAX_RETRY: nat := 3

  const OK: nat := 200
  const PARTIAL_CONTENT: nat := 206
  const RANGE_NOT_SATISFIABLE: nat := 416

  /** The Range header of the next request; `start + SegmentBytes` and `end - 1` wrap around. */
  function NextRange(seg: nat, s: State): ByteRange {
    var sum := Wrap(s.bytesRead + seg);
    var end := if s.bytesTotal.Some? && 0 < s.bytesTotal.value < sum then s.bytesTotal.value else sum;
    ByteRange(s.bytesRead, if end == 0 then U64 - 1 else end - 1)
  }

  datatype Chunk = Refused(error: Error) | Chunk(reply: Reply, start: nat, length: int)

  /** `downloader.getNextChunk` */
  function GetNextChunk(server: Server, seg: nat, s: State): (r: (State, Chunk))
    ensures r.0.reader == s.reader && r.0.bytesRead == s.bytesRead && r.0.retries == s.retries
    ensures r.1.Chunk? ==> r.1.reply.Reply?
    ensures r.1.Refused? ==> r.1.error !in {Eof, BodyError, CloseError, WrongOffset}
  {
    var range := NextRange(seg, s);
    var reply := server(|s.log|, range);
    var s1 := s.(log := s.log + [range]);
    if reply.TransportError? then (s1, Refused(Transport))
    else if s1.etag != "" && s1.etag != reply.etag then (s1, Refused(EtagChanged))
    else AcceptHeaders(s1.(etag := reply.etag), reply)
  }

  function AcceptHeaders(s: State, reply: Reply): (r: (State, Chunk))
    requires reply.Reply?
    ensures r.0.reader == s.reader && r.0.bytesRead == s.bytesRead && r.0.retries == s.retries
    ensures r.1.Chunk? ==> r.1.reply == reply
    ensures r.1.Refused? ==> r.1.error !in {Eof, BodyError, CloseError, WrongOffset}
  {
    if reply.status != PARTIAL_CONTENT then (s, Chunk(reply, 0, 0))
    else
      match reply.contentRange
      case None => (s, Refused(MalformedContentRange))
      case Some(Range(start, stop, total)) =>
        var chunk := Chunk(reply, start, if stop - start == U64 - 1 then 0 else stop - start + 1);
        if s.bytesTotal.None? then (s.(bytesTotal := total), chunk)
        else if total.None? then (s, Refused(NilDereference))
        else if s.bytesTotal != total then (s, Refused(TotalChanged))
        else (s, chunk)
  }

  /** `downloader.shouldRetry` at the given value of `BytesRead` */
  function ShouldRetry(r: Retries, offset: nat): (Retries, bool) {
    var r1 := r.(total := r.total + 1);
    var granted := r.restarts + [offset];
    if r1.total > MAX_TOTAL_RETRY then (r1, false)
    else if r1.lastErrorAt != offset then
      (r1.(lastErrorAt := offset, lastErrorCount := 0, restarts := granted), true)
    else
      var r2 := r1.(lastErrorCount := r1.lastErrorCount + 1);
      if r2.lastErrorCount > MAX_RETRY then (r2, false)
      else (r2.(restarts := granted), true)
  }

  /** What one or several calls of `Read` leave behind: the state, the bytes and the first error. */
  datatype Outcome = Outcome(state: State, bytes: seq<Byte>, error: Option<Error>)

  /** The second half of `downloader.Read`: "is there a next chunk?" */
  function NextChunk(server: Server, seg: nat, s: State): (r: (State, Option<Error>))
    ensures s.Readable() ==> r.0.Readable()
    ensures r.1.Some? ==> r.0.reader == s.reader
    ensures r.0.bytesRead == s.bytesRead && r.0.retries == s.retries
    ensures r.1.Some? ==> r.1.value !in {BodyError, CloseError}
  {
    if s.bytesTotal == Some(s.bytesRead) then (s, Some(Eof)) else
    var (s1, chunk) := GetNextChunk(server, seg, s);
    if chunk.Refused? then (s1, Some(chunk.error))
    else if chunk.start != s1.bytesRead then (s1, Some(WrongOffset))
    else (s1.(reader := Open(chunk.reply.body, 0)), None)
  }

  /** The error branches of `downloader.Read`: the current body has reported its end. */
  function AfterBody(server: Server, seg: nat, s: State): (r: (State, Option<Error>))
    requires !s.reader.NoReader?
    ensures s.Readable() ==> r.0.Readable()
    ensures r.1.Some? ==> (r.0.reader.NoReader? <==> s.reader.Open? && !s.reader.body.broken)
  {
    if s.reader.Closed? || s.reader.body.broken then
      var (r, retry) := ShouldRetry(s.retries, s.bytesRead);
      if !retry then (s.(retries := r), Some(BodyError))
      else NextChunk(server, seg, s.(retries := r, reader := Closed))
    else
      var s1 := s.(reader := NoReader);
      if s.reader.body.closeFails then (s1, Some(CloseError))
      else NextChunk(server, seg, s1)
  }

  /** The state after `n` more bytes of the current body. */
  function Advance(s: State, n: nat): State
    requires s.reader.Open?
  {
    s.(bytesRead := s.bytesRead + n, reader := s.reader.(pos := s.reader.pos + n))
  }

  /** `downloader.Read` on a buffer of `want` bytes */
  function Read(server: Server, seg: nat, s: State, want: nat): (o: Outcome)
    requires s.Readable()
    ensures o.state.Readable()
  {
    match s.reader
    case NoReader => Outcome(s, [], Some(Eof))
    case Closed =>
      var (s1, error) := AfterBody(server, seg, s);
      Outcome(s1, [], error)
    case Open(body, pos) =>
      var (n, end) := body.Deliver(pos, want);
      var s1 := Advance(s, n);
      var bytes := body.data[pos..pos + n];
      if !end then Outcome(s1, bytes, None)
      else
        var (s2, error) := AfterBody(server, seg, s1);
        Outcome(s2, bytes, error)
  }

  /** Successive reads with the given buffer sizes, up to the first error. */
  function Run(server: Server, seg: nat, s: State, wants: seq<nat>): (o: Outcome)
    requires s.Readable()
    ensures o.state.Readable()
    decreases wants
  {
    if wants == [] then Outcome(s, [], None) else
    var o := Read(server, seg, s, wants[0]);
    if o.error.Some? then o else
    var rest := Run(server, seg, o.state, wants[1..]);
    Outcome(rest.state, o.bytes + rest.bytes, rest.error)
  }

  /**
   * What the caller of `EnhancedGet` gets: an error; the unranged response after a 416;
   * the response to the first request as it is; that response shown as a 200 because it
   * holds the whole file; or a 200 whose body is the downloader.
   */
  datatype Got =
    | Failed(error: Error)
    | Unranged(reply: Reply)
    | AsIs(reply: Reply)
    | WholeFile(reply: Reply, length: int)
    | Segmented(state: State, contentLength: Option<nat>)

  function EnhancedGet(server: Server, plain: Reply, seg: nat): (g: Got)
    ensures g.Segmented? ==> g.state.Readable()
  {
    var (s, chunk) := GetNextChunk(server, seg, START);
    if chunk.Refused? then Failed(chunk.error)
    else Present(s, chunk, plain)
  }

  /** How the first response is passed on; `plain` is what a request without a Range header yields. */
  function Present(s: State, chunk: Chunk, plain: Reply): (g: Got)
    requires chunk.Chunk? && chunk.reply.Reply?
    ensures g.Segmented? ==> g.state.Readable()
  {
    if chunk.reply.status == RANGE_NOT_SATISFIABLE then
      if plain.TransportError? then Failed(Transport) else Unranged(plain)
    else if chunk.reply.status != PARTIAL_CONTENT then AsIs(chunk.reply)
    else if s.bytesTotal.None? then Failed(NilDereference)
    else if 0 < s.bytesTotal.value == chunk.length then WholeFile(chunk.reply, chunk.length)
    else if s.bytesTotal.value > MAX_INT64 then Failed(TotalTooLarge)
    else
      // a total of zero leaves the length of the 206 response in place
      var contentLength := if s.bytesTotal.value > 0 then s.bytesTotal else None;
      Segmented(s.(reader := Open(chunk.reply.body, 0)), contentLength)
  }
}
