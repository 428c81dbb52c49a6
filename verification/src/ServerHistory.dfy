/** Histories of a server: the calls it has executed and what each connection has seen of them. */
module ServerHistory {
  import opened Wrappers
  import opened Bytes
  import opened SortedMap
  import opened RespFormat
  import opened RequestCodecs
  import opened KvStores
  import opened Commands

  /** One executed request: on which connection, how a checkpoint in it ended, whether it has put
      no short snapshot in place, what was answered. */
  datatype Call = Call(conn: nat, request: Request, checkpoint: CheckpointResult, flushed: bool, response: Bytes)

  predicate Completed(call: Call) { Parse(call.request) == Checkpoint && call.checkpoint == Done }

  /** A restart would bring the map back: it would have at the start or since the last completed
      checkpoint, and no snapshot has been put in place short since. */
  ghost predicate HealthAfter(start: bool, calls: seq<Call>) {
    if calls == [] then start
    else
      var before, last := calls[..|calls| - 1], calls[|calls| - 1];
      last.flushed && (Completed(last) || HealthAfter(start, before))
  }

  /** The map after some calls. */
  ghost function MapOfCalls(m: Contents, calls: seq<Call>): Contents {
    if calls == [] then m
    else Updated(MapOfCalls(m, calls[..|calls| - 1]), Parse(calls[|calls| - 1].request))
  }

  /** Every answer is the one the map at that moment calls for. */
  ghost predicate Honest(m: Contents, calls: seq<Call>) {
    calls == []
    || var before, last := calls[..|calls| - 1], calls[|calls| - 1];
       Honest(m, before) && last.response == Respond(MapOfCalls(m, before), last.request, last.checkpoint)
  }

  lemma HealthNext(start: bool, calls: seq<Call>, call: Call)
    ensures HealthAfter(start, calls + [call]) == (call.flushed && (Completed(call) || HealthAfter(start, calls)))
  {
    assert (calls + [call])[..|calls|] == calls;
  }

  /** The calls of one connection, in order. */
  ghost function CallsOf(calls: seq<Call>, conn: nat): seq<Call> {
    if calls == [] then []
    else
      var before, last := calls[..|calls| - 1], calls[|calls| - 1];
      if last.conn == conn then CallsOf(before, conn) + [last] else CallsOf(before, conn)
  }

  ghost function RequestsOf(calls: seq<Call>): seq<Request> {
    if calls == [] then [] else RequestsOf(calls[..|calls| - 1]) + [calls[|calls| - 1].request]
  }

  ghost function Output(calls: seq<Call>): Bytes {
    if calls == [] then [] else Output(calls[..|calls| - 1]) + calls[|calls| - 1].response
  }

  predicate AnyQuit(requests: seq<Request>) { exists r :: r in requests && IsQuit(r) }

  /** Every call so far belongs to one of the first `n` connections. */
  predicate CallsBelow(calls: seq<Call>, n: nat) { forall c :: c in calls ==> c.conn < n }

  predicate CallsFit(calls: seq<Call>) { forall c :: c in calls ==> TokensFit(c.request) }

  // -------------------------------------------------------------- connections

  datatype Ending = PeerGone | ReadFailed | Refused | WriteFailed | Finished

  /** What is known of one connection: the chunks read from it, the undecoded bytes, the
      bytes sent and still to be sent, whether it will be closed and why it was. */
  datatype Sheet = Sheet(chunks: seq<Bytes>, buffer: Bytes, sent: Bytes, pending: Bytes, closing: bool,
      ending: Option<Ending>)

  /** An open connection between two reads or writes. */
  ghost predicate Serving(own: seq<Call>, s: Sheet) {
    && Feed([], s.chunks) == Decoded(RequestsOf(own), s.buffer)
    && s.sent + s.pending == Output(own)
    && s.closing == AnyQuit(RequestsOf(own))
    && s.ending == None
  }

  /** The chunks whose requests have been executed: not the one that could not be decoded. */
  function Accepted(s: Sheet): seq<Bytes> {
    if s.ending == Some(Refused) && s.chunks != [] then s.chunks[..|s.chunks| - 1] else s.chunks
  }

  /** Any connection, open or closed. */
  ghost predicate Past(own: seq<Call>, s: Sheet) {
    && Feed([], Accepted(s)).Decoded? && Feed([], Accepted(s)).requests == RequestsOf(own)
    && s.sent <= Output(own)
    && (s.ending == Some(Refused) ==> s.chunks != [] && Feed([], s.chunks).Failed?)
    && (s.ending == Some(Finished) ==> s.sent == Output(own) && AnyQuit(RequestsOf(own)))
  }

  lemma ServingIsPast(own: seq<Call>, s: Sheet)
    requires Serving(own, s)
    ensures Past(own, s)
  {
  }

  /** The connection is torn down. */
  lemma Ended(own: seq<Call>, s: Sheet, s': Sheet)
    requires Serving(own, s) && s'.chunks == s.chunks && s'.sent == s.sent && s'.ending.Some?
    requires s'.ending != Some(Refused)
    requires s'.ending == Some(Finished) ==> s.pending == [] && s.closing
    ensures Past(own, s')
  {
    hide Feed;
  }

  /** The decoder has thrown on the chunk `c`. */
  lemma EndedRefused(own: seq<Call>, s: Sheet, c: Bytes, s': Sheet)
    requires Serving(own, s) && s'.chunks == s.chunks + [c] && s'.sent == s.sent && s'.ending == Some(Refused)
    requires Decode(s.buffer + c).Failed?
    ensures Past(own, s')
  {
    hide Feed, Decode;
    assert Accepted(s') == s.chunks;
    FeedNext([], s.chunks, c);
  }

  /** Some bytes have been sent. */
  lemma SentSome(own: seq<Call>, s: Sheet, n: nat, s': Sheet)
    requires Serving(own, s) && n <= |s.pending| && s' == s.(sent := s.sent + s.pending[..n], pending := s.pending[n..])
    ensures Serving(own, s')
  {
    hide Feed;
    assert s'.sent + s'.pending == s.sent + s.pending;
  }

  // -------------------------------------------------------------------- calls

  /** Answering `requests` on a connection turns `before` into `after`. */
  ghost predicate Answered(before: seq<Call>, after: seq<Call>, conn: nat, requests: seq<Request>) {
    && before <= after
    && RequestsOf(CallsOf(after, conn)) == RequestsOf(CallsOf(before, conn)) + requests
    && Output(CallsOf(before, conn)) <= Output(CallsOf(after, conn))
    && (requests != [] ==> Output(CallsOf(before, conn)) != Output(CallsOf(after, conn)))
    && (forall other :: other != conn ==> CallsOf(after, other) == CallsOf(before, other))
  }

  lemma AnsweredNone(calls: seq<Call>, conn: nat)
    ensures Answered(calls, calls, conn, [])
  {
    assert RequestsOf(CallsOf(calls, conn)) + [] == RequestsOf(CallsOf(calls, conn));
  }

  /** One more request is answered. */
  lemma AnsweredNext(before: seq<Call>, calls: seq<Call>, conn: nat, requests: seq<Request>, last: Call)
    requires Answered(before, calls, conn, requests) && last.conn == conn && last.response != []
    ensures Answered(before, calls + [last], conn, requests + [last.request])
    ensures Output(CallsOf(calls + [last], conn)) == Output(CallsOf(calls, conn)) + last.response
  {
    var after := calls + [last];
    assert after[..|calls|] == calls;
    var own := CallsOf(calls, conn);
    assert (own + [last])[..|own|] == own;
    var rs := RequestsOf(CallsOf(before, conn));
    assert rs + (requests + [last.request]) == (rs + requests) + [last.request];
  }

  /** Answering the requests of one more chunk keeps a connection in order. */
  lemma ServedChunk(before: seq<Call>, after: seq<Call>, conn: nat, s: Sheet, c: Bytes, s': Sheet)
    requires Serving(CallsOf(before, conn), s) && Decode(s.buffer + c).Decoded?
    requires Answered(before, after, conn, Decode(s.buffer + c).requests)
    requires s'.chunks == s.chunks + [c] && s'.buffer == Decode(s.buffer + c).rest && s'.sent == s.sent
             && s'.ending == None
    requires s.sent + s'.pending == Output(CallsOf(after, conn))
    requires s'.closing == (s.closing || AnyQuit(Decode(s.buffer + c).requests))
    ensures Serving(CallsOf(after, conn), s')
  {
    hide Feed, Decode, CallsOf, RequestsOf, Output;
    FeedNext([], s.chunks, c);
    QuitInEither(RequestsOf(CallsOf(before, conn)), Decode(s.buffer + c).requests);
  }

  lemma QuitInEither(a: seq<Request>, b: seq<Request>)
    ensures AnyQuit(a + b) == (AnyQuit(a) || AnyQuit(b))
  {
    hide IsQuit;
    if r :| r in a && IsQuit(r) { assert r in a + b; }
    if r :| r in b && IsQuit(r) { assert r in a + b; }
  }

  /** The map and the answers after one more call. */
  lemma HonestNext(m: Contents, calls: seq<Call>, last: Call)
    requires Honest(m, calls) && last.response == Respond(MapOfCalls(m, calls), last.request, last.checkpoint)
    ensures Honest(m, calls + [last])
            && MapOfCalls(m, calls + [last]) == Updated(MapOfCalls(m, calls), Parse(last.request))
  {
    hide Respond, Updated, Parse;
    assert (calls + [last])[..|calls|] == calls;
  }

  lemma {:induction false} NoCallsOf(calls: seq<Call>, conn: nat)
    requires CallsBelow(calls, conn)
    ensures CallsOf(calls, conn) == []
  {
    if calls != [] {
      var before := calls[..|calls| - 1];
      assert forall c :: c in before ==> c in calls;
      assert calls[|calls| - 1] in calls;
      NoCallsOf(before, conn);
    }
  }

  /** The map stays within what the files can hold. */
  lemma {:induction false} CallsKeepSizes(m: Contents, calls: seq<Call>)
    requires SizesOk(m) && |m| + |calls| < TWO64 && CallsFit(calls)
    ensures SizesOk(MapOfCalls(m, calls)) && |MapOfCalls(m, calls)| <= |m| + |calls|
  {
    if calls != [] {
      var before, last := calls[..|calls| - 1], calls[|calls| - 1];
      assert forall c :: c in before ==> c in calls;
      CallsKeepSizes(m, before);
      assert last in calls;
      CommandKeepsSizes(MapOfCalls(m, before), last.request);
    }
  }

  lemma CommandKeepsSizes(m: Contents, tokens: Request)
    requires SizesOk(m) && |m| + 1 < TWO64 && TokensFit(tokens)
    ensures SizesOk(Updated(m, Parse(tokens))) && |Updated(m, Parse(tokens))| <= |m| + 1
  {
    CommandTokens(tokens);
    hide Parse;
    match Parse(tokens) {
      case Put(k, v) => EffectFits(m, PutOp(k, v));
      case Del(k) => EffectFits(m, DeleteOp(k));
      case _ =>
    }
  }

  lemma CommandTokens(tokens: Request)
    ensures Parse(tokens).Put? ==> Parse(tokens).key in tokens && Parse(tokens).value in tokens
    ensures Parse(tokens).Del? ==> Parse(tokens).key in tokens
  {
    hide ToUpper, Ascii;
  }

  // ------------------------------------------------------------------ results

  /** The requests that were complete when the decoder threw, in the chunk it threw on. */
  ghost function Lost(s: Sheet): seq<Request> {
    if s.ending == Some(Refused) && s.chunks != [] && Feed([], Accepted(s)).Decoded?
    then AllRequests(Feed([], Accepted(s)).rest + s.chunks[|s.chunks| - 1])
    else []
  }

  /**
   * However its bytes were chunked, what was executed on a connection is what decoding
   * all its bytes at once yields, but for the requests that became complete with the very
   * chunk on which the decoder threw: those are lost. So nothing is lost if and only if
   * that chunk completes no request before the error.
   */
  lemma ExecutedInOrder(own: seq<Call>, s: Sheet)
    requires Past(own, s) && |Concat(s.chunks)| <= MAX_STRING && !AnyWraps(Concat(s.chunks))
    ensures AllRequests(Concat(s.chunks)) == RequestsOf(own) + Lost(s)
    ensures Lost(s) == [] <==> RequestsOf(own) == AllRequests(Concat(s.chunks))
    ensures s.ending == Some(Refused) ==>
              (Lost(s) == [] <==> !Extract(Feed([], Accepted(s)).rest + s.chunks[|s.chunks| - 1]).Complete?)
    ensures Serving(own, s) ==> Decode(Concat(s.chunks)) == Decoded(RequestsOf(own), s.buffer)
  {
    hide Feed, Decode, AnyWraps, AllRequests, RequestsOf, Output, Extract;
    var chunks := Accepted(s);
    var a := Concat(chunks);
    if s.ending == Some(Refused) {
      var last := s.chunks[|s.chunks| - 1];
      ConcatNext(chunks, last);
      assert chunks + [last] == s.chunks;
      if AnyWraps(a) { WrapsInPrefix(a, last); }
      FedDecodes(chunks);
      AllRequestsSplit(a, last);
      NoRequests(Decode(a).rest + last);
    } else {
      FedDecodes(chunks);
      DecodedIsAll(a);
      assert RequestsOf(own) + [] == RequestsOf(own);
    }
  }

  /** A request lost: it arrives complete, in one chunk with a byte that cannot start another. */
  lemma RequestLost(r: Request, bad: byte)
    requires |r| <= MAX_TOKENS && |EncodeRequest(r)| + 1 <= MAX_STRING && bad != STAR
    ensures var s := Sheet([EncodeRequest(r) + [bad]], EncodeRequest(r) + [bad], [], [], false, Some(Refused));
            Past([], s) && Lost(s) == [r] && !AnyWraps(Concat(s.chunks))
  {
    hide EncodeRequest, Extract, Wraps;
    var e := EncodeRequest(r);
    var chunk := e + [bad];
    RequestRoundTrip(r, [bad]);
    ExtractEnd(chunk);
    assert chunk[|e|..] == [bad];
    BadByte(bad);
    assert [] + chunk == chunk;
    assert AllRequests(chunk) == [r] + AllRequests([bad]);
    assert AllRequests([bad]) == [];
    assert Decode(chunk).Failed?;
    assert [chunk][..0] == [] && [chunk][1..] == [];
    assert Feed([], [chunk]).Failed?;
    assert Concat([chunk]) == chunk + Concat([]) == chunk;
  }

  lemma BadByte(bad: byte)
    requires bad != STAR
    ensures Extract([bad]) == Error(NotAnArray) && !Wraps([bad])
  {
  }

  lemma FedDecodes(chunks: seq<Bytes>)
    requires |Concat(chunks)| <= MAX_STRING && !AnyWraps(Concat(chunks)) && Feed([], chunks).Decoded?
    ensures Decode(Concat(chunks)) == Feed([], chunks)
  {
    hide Feed, Decode, AnyWraps;
    assert [] + Concat(chunks) == Concat(chunks);
    ChunksDoNotMatter([], chunks);
  }
}
