/**
 * The stream does not depend on how it is read: buffer sizes, short reads and the
 * moment at which a body reports its end make no difference to the bytes, to the first
 * error, or to the state the download ends in. No assumption on the server is needed.
 *
 * What happens at the end of a body is irrelevant here, so most of this file is about
 * an arbitrary function `after` in the place of `AfterBody`.
 */
module DownloadBuffers {
  import opened Base
  import opened Download

  type After = State -> (State, Option<Error>)

  ghost predicate Tame(after: After) {
    forall s: State :: s.Readable() ==> after(s).0.Readable()
  }

  /** `Read`, with `after` at the end of a body. */
  ghost function ReadWith(after: After, s: State, want: nat): (o: Outcome)
    requires Tame(after) && s.Readable()
    ensures o.state.Readable()
  {
    if !s.reader.Open? then Outcome(after(s).0, [], after(s).1) else
    var (n, end) := s.reader.body.Deliver(s.reader.pos, want);
    var s1 := Advance(s, n);
    var bytes := s.reader.body.data[s.reader.pos..s.reader.pos + n];
    if end then Outcome(after(s1).0, bytes, after(s1).1) else Outcome(s1, bytes, None)
  }

  ghost function RunWith(after: After, s: State, wants: seq<nat>): (o: Outcome)
    requires Tame(after) && s.Readable()
    ensures o.state.Readable()
    decreases wants
  {
    if wants == [] then Outcome(s, [], None) else
    var o := ReadWith(after, s, wants[0]);
    if o.error.Some? then o else Prepend(o.bytes, RunWith(after, o.state, wants[1..]))
  }

  function Prepend(bytes: seq<Byte>, o: Outcome): Outcome {
    o.(bytes := bytes + o.bytes)
  }

  /** A coarse download that takes whole bodies: the current one and up to `k` further ones. */
  ghost function Settle(after: After, s: State, k: nat): (o: Outcome)
    requires Tame(after) && s.Readable()
    decreases k
  {
    var (rest, s0) := if s.reader.Open?
                      then (s.reader.body.data[s.reader.pos..], Advance(s, |s.reader.body.data| - s.reader.pos))
                      else ([], s);
    var (s1, error) := after(s0);
    if error.Some? || k == 0 then Outcome(s1, rest, error) else Prepend(rest, Settle(after, s1, k - 1))
  }

  /** The coarse download, continued from where `o` stopped without an error. */
  ghost function Continue(after: After, o: Outcome, k: nat): Outcome
    requires Tame(after) && o.state.Readable()
  {
    if o.error.Some? then o else Prepend(o.bytes, Settle(after, o.state, k))
  }

  lemma PrependTwice(a: seq<Byte>, b: seq<Byte>, o: Outcome)
    ensures Prepend(a, Prepend(b, o)) == Prepend(a + b, o)
  {
    assert a + (b + o.bytes) == a + b + o.bytes;
  }

  lemma SettleAfterAdvance(after: After, s: State, n: nat, k: nat)
    requires Tame(after) && s.Readable() && s.reader.Open? && s.reader.pos + n <= |s.reader.body.data|
    ensures Settle(after, s, k) ==
      Prepend(s.reader.body.data[s.reader.pos..s.reader.pos + n], Settle(after, Advance(s, n), k))
  {
    var data, pos := s.reader.body.data, s.reader.pos;
    var s0 := Advance(s, |data| - pos);
    assert data[pos..] == data[pos..pos + n] + data[pos + n..];
    assert Advance(Advance(s, n), |data| - (pos + n)) == s0;
    if after(s0).1.None? && k > 0 {
      PrependTwice(data[pos..pos + n], data[pos + n..], Settle(after, after(s0).0, k - 1));
    }
  }

  /** Whether a read takes the current body to its end. */
  ghost predicate EndsBody(s: State, want: nat)
    requires s.Readable()
  {
    s.reader.Open? ==> s.reader.body.Deliver(s.reader.pos, want).1
  }

  lemma ReadSettles(after: After, s: State, want: nat, k: nat)
    requires Tame(after) && s.Readable()
    ensures var o := ReadWith(after, s, want);
      if o.error.Some? then Settle(after, s, k) == o
      else Settle(after, s, k + if EndsBody(s, want) then 1 else 0) == Continue(after, o, k)
  {
    if s.reader.Open? {
      var body, pos := s.reader.body, s.reader.pos;
      var (n, end) := body.Deliver(pos, want);
      if end {
        assert body.data[pos..] == body.data[pos..pos + n];
      } else {
        SettleAfterAdvance(after, s, n, k);
      }
    }
  }

  /** The bodies that end during a run. */
  ghost function Ends(after: After, s: State, wants: seq<nat>): nat
    requires Tame(after) && s.Readable()
    decreases wants
  {
    if wants == [] then 0 else
    var o := ReadWith(after, s, wants[0]);
    if o.error.Some? then 0 else
    (if EndsBody(s, wants[0]) then 1 else 0) + Ends(after, o.state, wants[1..])
  }

  /** A fine-grained run is the beginning of the coarse download. */
  lemma {:induction false} RunSettles(after: After, s: State, wants: seq<nat>, m: nat, k: nat)
    requires Tame(after) && s.Readable() && m == k + Ends(after, s, wants)
    ensures Settle(after, s, m) == Continue(after, RunWith(after, s, wants), k)
    decreases wants
  {
    if wants == [] {
      assert [] + Settle(after, s, k).bytes == Settle(after, s, k).bytes;
    } else {
      var o := ReadWith(after, s, wants[0]);
      ReadSettles(after, s, wants[0], m);
      if o.error.None? {
        var m1 := k + Ends(after, o.state, wants[1..]);
        RunSettles(after, o.state, wants[1..], m1, k);
        ReadSettles(after, s, wants[0], m1);
        var rest := RunWith(after, o.state, wants[1..]);
        if rest.error.None? {
          PrependTwice(o.bytes, rest.bytes, Settle(after, rest.state, k));
        }
      }
    }
  }

  // ----- the downloader -----

  /** Marks the states whose `after` a proof wants to look into. */
  predicate LookInto(s: State) {
    true
  }

  /** `after` is `AfterBody` for this server. */
  ghost predicate IsAfterBody(after: After, server: Server, seg: nat) {
    && Tame(after)
    && forall s: State {:trigger LookInto(s)} :: LookInto(s) ==>
         after(s) == if s.reader.NoReader? then (s, Some(Eof)) else AfterBody(server, seg, s)
  }

  ghost function AfterOf(server: Server, seg: nat): (after: After)
    ensures IsAfterBody(after, server, seg)
  {
    (s: State) => if s.reader.NoReader? then (s, Some(Eof)) else AfterBody(server, seg, s)
  }

  lemma ReadIsReadWith(after: After, server: Server, seg: nat, s: State, want: nat)
    requires IsAfterBody(after, server, seg) && s.Readable()
    ensures Read(server, seg, s, want) == ReadWith(after, s, want)
  {
    assert LookInto(s);
    if s.reader.Open? {
      assert LookInto(Advance(s, s.reader.body.Deliver(s.reader.pos, want).0));
    }
  }

  lemma {:induction false} RunIsRunWith(after: After, server: Server, seg: nat, s: State, wants: seq<nat>)
    requires IsAfterBody(after, server, seg) && s.Readable()
    ensures Run(server, seg, s, wants) == RunWith(after, s, wants)
    decreases wants
  {
    if wants == [] {
    } else {
      ReadIsReadWith(after, server, seg, s, wants[0]);
      var o := Read(server, seg, s, wants[0]);
      if o.error.None? {
        RunIsRunWith(after, server, seg, o.state, wants[1..]);
      }
    }
  }

  lemma BuffersDoNotMatterWith(after: After, s: State, wants1: seq<nat>, wants2: seq<nat>)
    requires Tame(after) && s.Readable() && RunWith(after, s, wants1).error.Some?
    ensures var o1, o2 := RunWith(after, s, wants1), RunWith(after, s, wants2);
      if o2.error.Some? then o1 == o2 else o2.bytes <= o1.bytes
  {
    var j1, j2 := Ends(after, s, wants1), Ends(after, s, wants2);
    RunSettles(after, s, wants1, j1 + j2, j2);
    RunSettles(after, s, wants2, j1 + j2, j1);
  }

  /**
   * Two callers who read the same download with different buffers: if one of them has
   * seen an error, the other has the same bytes, error and state, or a prefix of the bytes.
   */
  lemma BuffersDoNotMatter(server: Server, seg: nat, s: State, wants1: seq<nat>, wants2: seq<nat>)
    requires s.Readable() && Run(server, seg, s, wants1).error.Some?
    ensures var o1, o2 := Run(server, seg, s, wants1), Run(server, seg, s, wants2);
      if o2.error.Some? then o1 == o2 else o2.bytes <= o1.bytes
  {
    var after := AfterOf(server, seg);
    RunIsRunWith(after, server, seg, s, wants1);
    RunIsRunWith(after, server, seg, s, wants2);
    BuffersDoNotMatterWith(after, s, wants1, wants2);
  }
}
