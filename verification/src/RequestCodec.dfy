/** The incremental decoder of a connection and the encoder of the client. */
module RequestCodecs {
  import opened Wrappers
  import opened Bytes
  import opened RespFormat

  // ---------------------------------------------------------- whole buffers

  /** What ExtractRequests leaves: the requests and the rest of the buffer, or an
      exception, with the requests decoded before it lost. */
  datatype Decoded = Decoded(requests: seq<Request>, rest: Bytes) | Failed(error: ProtocolError, rest: Bytes)

  function PrependRequests(rs: seq<Request>, d: Decoded): Decoded {
    if d.Decoded? then Decoded(rs + d.requests, d.rest) else d
  }

  lemma ExtractEnd(b: Bytes)
    ensures Extract(b).Complete? ==> 0 < Extract(b).end
  {
    if Extract(b).Complete? {
      TokensEnd(b, ReadSize(b, 0, InvalidArrayLength).next, ReadSize(b, 0, InvalidArrayLength).size);
    }
  }

  lemma {:induction false} TokensEnd(b: Bytes, cursor: nat, count: nat)
    requires cursor > 0
    ensures ReadTokens(b, cursor, count).Complete? ==> ReadTokens(b, cursor, count).end > 0
    decreases count
  {
    hide ReadToken;
    if count > 0 && ReadToken(b, cursor).Token? {
      TokenEnd(b, cursor);
      TokensEnd(b, ReadToken(b, cursor).next, count - 1);
    }
  }

  lemma TokenEnd(b: Bytes, cursor: nat)
    ensures ReadToken(b, cursor).Token? ==> ReadToken(b, cursor).next > 0
  {
    hide ReadSize;
  }

  function Decode(b: Bytes): (d: Decoded)
    decreases |b|
  {
    match Extract(b)
    case Incomplete => Decoded([], b)
    case Error(e) => Failed(e, b)
    case Complete(tokens, end) => ExtractEnd(b); PrependRequests([tokens], Decode(b[end..]))
  }

  /** A length in one of the requests of the buffer wraps around 2^64. */
  predicate AnyWraps(b: Bytes)
    decreases |b|
  {
    Wraps(b) || (Extract(b).Complete? && (ExtractEnd(b); AnyWraps(b[Extract(b).end..])))
  }

  // ------------------------------------------------------ chunk independence

  /** Append each chunk and extract after it. */
  function Feed(buffer: Bytes, chunks: seq<Bytes>): Decoded
    decreases |chunks|
  {
    if chunks == [] then Decoded([], buffer)
    else
      match Decode(buffer + chunks[0])
      case Failed(e, rest) => Failed(e, rest)
      case Decoded(rs, rest) => PrependRequests(rs, Feed(rest, chunks[1..]))
  }

  function Concat(chunks: seq<Bytes>): Bytes {
    if chunks == [] then [] else chunks[0] + Concat(chunks[1..])
  }

  lemma PrependTwice(a: seq<Request>, b: seq<Request>, d: Decoded)
    ensures PrependRequests(a, PrependRequests(b, d)) == PrependRequests(a + b, d)
  {
    if d.Decoded? { assert a + (b + d.requests) == (a + b) + d.requests; }
  }

  /** Decoding may stop anywhere and go on when the rest has arrived. */
  lemma {:induction false} DecodeSplits(a: Bytes, b: Bytes)
    requires |a| + |b| <= MAX_STRING && !AnyWraps(a)
    ensures var d := Decode(a);
            && (d.Decoded? ==> |d.rest| <= |a| && Decode(a + b) == PrependRequests(d.requests, Decode(d.rest + b))
                               && AnyWraps(a + b) == AnyWraps(d.rest + b))
            && (d.Failed? ==> Decode(a + b).Failed? && Decode(a + b).error == d.error)
    decreases |a|
  {
    hide Extract, Wraps;
    var e := Extract(a);
    if e != Incomplete && b != [] { ExtractExtends(a, b); }
    if b == [] { assert a + b == a; }
    if e.Complete? {
      ExtractEnd(a);
      var tail := a[e.end..];
      assert (a + b)[e.end..] == tail + b;
      DecodeSplits(tail, b);
      var d := Decode(tail);
      if d.Decoded? { PrependTwice([e.tokens], d.requests, Decode(d.rest + b)); }
    } else if e == Incomplete {
      PrependNone(Decode(a + b));
    }
  }

  lemma PrependNone(d: Decoded)
    ensures PrependRequests([], d) == d
  {
    if d.Decoded? { assert [] + d.requests == d.requests; }
  }

  /** A prefix of a stream without wrapping lengths has none either. */
  lemma {:induction false} WrapsInPrefix(a: Bytes, b: Bytes)
    requires |a| + |b| <= MAX_STRING && AnyWraps(a)
    ensures AnyWraps(a + b)
    decreases |a|
  {
    hide Extract, Wraps;
    if Extract(a) == Incomplete {
      WrapsExtends(a, b);
    } else {
      ExtractExtends(a, b);
      if !Wraps(a) {
        ExtractEnd(a);
        var end := Extract(a).end;
        assert (a + b)[end..] == a[end..] + b;
        WrapsInPrefix(a[end..], b);
      }
    }
  }

  /** Also before a request is complete, a length that wraps stays. */
  lemma WrapsExtends(a: Bytes, b: Bytes)
    requires |a| + |b| <= MAX_STRING && Wraps(a)
    ensures Wraps(a + b)
  {
    hide ReadSize, TokensWrap;
    SizeExtends(a, 0, InvalidArrayLength, b);
    var l := ReadSize(a, 0, InvalidArrayLength);
    TokensWrapExtends(a, l.next, l.size, b);
  }

  lemma {:induction false} TokensWrapExtends(a: Bytes, cursor: nat, count: nat, b: Bytes)
    requires |a| + |b| <= MAX_STRING && TokensWrap(a, cursor, count)
    ensures TokensWrap(a + b, cursor, count)
    decreases count
  {
    hide ReadToken, WrapsAt;
    TokenExtends(a, cursor, b);
    if !WrapsAt(a, cursor) { TokensWrapExtends(a, ReadToken(a, cursor).next, count - 1, b); }
  }

  /** The rest of a decoded buffer wraps no length if the buffer does not. */
  lemma {:induction false} RestWraps(a: Bytes)
    requires !AnyWraps(a) && Decode(a).Decoded?
    ensures !AnyWraps(Decode(a).rest) && |Decode(a).rest| <= |a|
    decreases |a|
  {
    hide Extract, Wraps;
    if Extract(a).Complete? {
      ExtractEnd(a);
      RestWraps(a[Extract(a).end..]);
    }
  }

  /**
   * Chunk independence: any way to cut a stream into chunks yields the requests and
   * the leftover bytes that decoding the whole stream at once yields, and fails
   * exactly when that fails, with the same error. The only condition is that no
   * length wraps around 2^64.
   */
  lemma {:induction false} ChunksDoNotMatter(buffer: Bytes, chunks: seq<Bytes>)
    requires |buffer| + |Concat(chunks)| <= MAX_STRING && !AnyWraps(buffer + Concat(chunks))
    requires Extract(buffer) == Incomplete
    ensures var whole, fed := Decode(buffer + Concat(chunks)), Feed(buffer, chunks);
            && (whole.Decoded? ==> fed == whole)
            && (whole.Failed? ==> fed.Failed? && fed.error == whole.error)
    decreases |chunks|
  {
    hide Extract, Wraps;
    if chunks == [] {
      assert buffer + Concat(chunks) == buffer;
    } else {
      var a, b := buffer + chunks[0], Concat(chunks[1..]);
      assert a + b == buffer + Concat(chunks);
      if AnyWraps(a) { WrapsInPrefix(a, b); }
      DecodeSplits(a, b);
      var d := Decode(a);
      if d.Decoded? {
        RestIncomplete(a);
        ChunksDoNotMatter(d.rest, chunks[1..]);
        PrependEqual(d.requests, Decode(d.rest + b), Feed(d.rest, chunks[1..]));
      }
    }
  }

  lemma PrependEqual(rs: seq<Request>, a: Decoded, b: Decoded)
    requires (a.Decoded? ==> b == a) && (a.Failed? ==> b.Failed? && b.error == a.error)
    ensures var a', b' := PrependRequests(rs, a), PrependRequests(rs, b);
            (a'.Decoded? ==> b' == a') && (a'.Failed? ==> b'.Failed? && b'.error == a'.error)
  {
  }

  /** One more chunk. */
  lemma {:induction false} FeedNext(buffer: Bytes, chunks: seq<Bytes>, c: Bytes)
    requires Feed(buffer, chunks).Decoded?
    ensures Feed(buffer, chunks + [c]) ==
            PrependRequests(Feed(buffer, chunks).requests, Decode(Feed(buffer, chunks).rest + c))
    decreases |chunks|
  {
    hide Decode;
    if chunks == [] {
      assert [c][1..] == [] && (chunks + [c]) == [c];
      var d := Decode(buffer + c);
      if d.Decoded? { assert d.requests + [] == d.requests == [] + d.requests; }
    } else {
      assert (chunks + [c])[1..] == chunks[1..] + [c];
      var d := Decode(buffer + chunks[0]);
      FeedNext(d.rest, chunks[1..], c);
      var f := Feed(d.rest, chunks[1..]);
      PrependTwice(d.requests, f.requests, Decode(f.rest + c));
    }
  }

  lemma {:induction false} ConcatNext(chunks: seq<Bytes>, c: Bytes)
    ensures Concat(chunks + [c]) == Concat(chunks) + c
  {
    if chunks == [] {
      assert [c][1..] == [] && chunks + [c] == [c];
    } else {
      assert (chunks + [c])[1..] == chunks[1..] + [c];
      ConcatNext(chunks[1..], c);
    }
  }

  /** The requests of a buffer up to its end or its first error. */
  function AllRequests(b: Bytes): seq<Request>
    decreases |b|
  {
    match Extract(b)
    case Complete(tokens, end) => ExtractEnd(b); [tokens] + AllRequests(b[end..])
    case _ => []
  }

  lemma {:induction false} DecodedIsAll(b: Bytes)
    requires Decode(b).Decoded?
    ensures Decode(b).requests == AllRequests(b)
    decreases |b|
  {
    hide Extract;
    if Extract(b).Complete? {
      ExtractEnd(b);
      DecodedIsAll(b[Extract(b).end..]);
    }
  }

  /** What has been decoded stays decoded when more bytes follow. */
  lemma {:induction false} AllRequestsGrow(a: Bytes, b: Bytes)
    requires |a| + |b| <= MAX_STRING && !AnyWraps(a)
    ensures AllRequests(a) <= AllRequests(a + b)
    decreases |a|
  {
    hide Extract, Wraps;
    if Extract(a).Complete? {
      if b == [] {
        assert a + b == a;
      } else {
        ExtractExtends(a, b);
        ExtractEnd(a);
        var end := Extract(a).end;
        assert (a + b)[end..] == a[end..] + b;
        AllRequestsGrow(a[end..], b);
      }
    }
  }

  /** Behind what has been decoded, all requests are those of the rest and what follows it. */
  lemma {:induction false} AllRequestsSplit(a: Bytes, b: Bytes)
    requires |a| + |b| <= MAX_STRING && !AnyWraps(a) && Decode(a).Decoded?
    ensures AllRequests(a + b) == Decode(a).requests + AllRequests(Decode(a).rest + b)
    decreases |a|
  {
    hide Extract, Wraps;
    if Extract(a).Complete? {
      ExtractEnd(a);
      var end, t := Extract(a).end, Extract(a).tokens;
      if b == [] { assert a + b == a; } else { ExtractExtends(a, b); }
      assert (a + b)[end..] == a[end..] + b;
      AllRequestsSplit(a[end..], b);
      assert [t] + (Decode(a[end..]).requests + AllRequests(Decode(a).rest + b))
          == Decode(a).requests + AllRequests(Decode(a).rest + b);
    } else {
      assert [] + AllRequests(a + b) == AllRequests(a + b);
    }
  }

  /** There is no request at all exactly when the first attempt yields none. */
  lemma NoRequests(b: Bytes)
    ensures AllRequests(b) == [] <==> !Extract(b).Complete?
  {
    hide Extract;
  }

  /** Extraction stops only at a buffer that holds no complete request. */
  lemma {:induction false} RestIncomplete(a: Bytes)
    requires Decode(a).Decoded?
    ensures Extract(Decode(a).rest) == Incomplete
    decreases |a|
  {
    hide Extract;
    if Extract(a).Complete? {
      ExtractEnd(a);
      RestIncomplete(a[Extract(a).end..]);
    }
  }

  /** A length in one of the complete requests of the buffer wraps around 2^64. */
  predicate CompleteWraps(b: Bytes)
    decreases |b|
  {
    Extract(b).Complete? && (ExtractEnd(b); Wraps(b) || CompleteWraps(b[Extract(b).end..]))
  }

  /** The condition is needed, wherever the request with the wrapping length stands: cutting
      a stream that decodes at any place, with bytes still to come, changes the result if and
      only if a length wraps in one of the requests that are complete at the cut. */
  lemma WrapsMatter(a: Bytes, more: Bytes)
    requires |a| + |more| <= MAX_STRING && more != [] && Decode(a).Decoded? && Decode(a + more).Decoded?
    ensures Feed([], [a, more]) == Decode(a + more) <==> !CompleteWraps(a)
  {
    hide Extract, Wraps, Decode, Feed, CompleteWraps;
    FeedTwo(a, more);
    SplitExact(a, more);
  }

  lemma {:induction false} SplitExact(a: Bytes, more: Bytes)
    requires |a| + |more| <= MAX_STRING && more != [] && Decode(a).Decoded? && Decode(a + more).Decoded?
    ensures Decode(a + more) == PrependRequests(Decode(a).requests, Decode(Decode(a).rest + more)) <==>
              !CompleteWraps(a)
    decreases |a|
  {
    hide Extract, Wraps;
    if Extract(a) == Incomplete {
      PrependNone(Decode(a + more));
    } else if Wraps(a) {
      hide Decode;
      CompleteFirst(a);
      WrapsDiffer(a, more);
    } else {
      ExtractExtends(a, more);
      ExtractEnd(a);
      var tail, t := a[Extract(a).end..], Extract(a).tokens;
      assert (a + more)[Extract(a).end..] == tail + more;
      SplitExact(tail, more);
      PrependTwice([t], Decode(tail).requests, Decode(Decode(tail).rest + more));
      PrependCancels([t], Decode(tail + more),
          PrependRequests(Decode(tail).requests, Decode(Decode(tail).rest + more)));
    }
  }

  lemma CompleteFirst(a: Bytes)
    requires Decode(a).Decoded? && Extract(a) != Incomplete
    ensures Extract(a).Complete?
  {
    hide Extract;
  }

  lemma PrependCancels(rs: seq<Request>, a: Decoded, b: Decoded)
    requires a.Decoded?
    ensures PrependRequests(rs, a) == PrependRequests(rs, b) <==> a == b
  {
    if b.Decoded? { assert (rs + a.requests)[|rs|..] == a.requests && (rs + b.requests)[|rs|..] == b.requests; }
  }

  lemma WrapsDiffer(a: Bytes, more: Bytes)
    requires |a| + |more| <= MAX_STRING && more != [] && Extract(a).Complete? && Wraps(a)
    requires Decode(a).Decoded? && Decode(a + more).Decoded?
    ensures Decode(a + more) != PrependRequests(Decode(a).requests, Decode(Decode(a).rest + more))
  {
    hide Extract, Wraps, Decode;
    ExtractExtends(a, more);
    var before, after := Extract(a), Extract(a + more);
    assert before.tokens != after.tokens;
    FirstRequest(a);
    hide AnyWraps;
    var d, rs := Decode(a + more), Decode(a).requests;
    var fed := Decode(Decode(a).rest + more);
    FirstRequest(a + more);
    if fed.Decoded? { assert (rs + fed.requests)[0] == rs[0]; }
  }

  lemma FeedTwo(a: Bytes, b: Bytes)
    requires Decode(a).Decoded?
    ensures Feed([], [a, b]) == PrependRequests(Decode(a).requests, Decode(Decode(a).rest + b))
  {
    hide Decode;
    assert [] + a == a && [a, b][1..] == [b] && [b][1..] == [];
    var rest := Decode(a).rest;
    var d := Decode(rest + b);
    assert Feed(rest, [b]) == d by {
      if d.Decoded? { assert d.requests + [] == d.requests; }
    }
  }

  lemma FirstRequest(a: Bytes)
    requires Extract(a).Complete? && Decode(a).Decoded?
    ensures Decode(a).requests != [] && Decode(a).requests[0] == Extract(a).tokens
  {
    hide Extract;
  }

  // -------------------------------------------------------------- whole streams

  function EncodeRequests(rs: seq<Request>): Bytes {
    if rs == [] then [] else EncodeRequest(rs[0]) + EncodeRequests(rs[1..])
  }

  predicate RequestsOk(rs: seq<Request>) { forall r :: r in rs ==> |r| <= MAX_TOKENS }

  /** A stream of printed requests, the last one perhaps cut short, decodes to those requests. */
  lemma {:induction false} StreamDecodes(rs: seq<Request>, last: Request, n: nat)
    requires RequestsOk(rs + [last]) && n < |EncodeRequest(last)|
             && |EncodeRequests(rs)| + |EncodeRequest(last)| <= MAX_STRING
    ensures var stream, cut := EncodeRequests(rs) + EncodeRequest(last)[..n], EncodeRequest(last)[..n];
            Decode(stream) == Decoded(rs, cut) && !AnyWraps(stream)
    decreases |rs|
  {
    hide Extract, Wraps, EncodeRequest;
    var cut := EncodeRequest(last)[..n];
    assert last in rs + [last];
    if rs == [] {
      assert EncodeRequests(rs) + cut == cut;
      CutIncomplete(last, n);
      CutWraps(last, n);
    } else {
      var first, others := EncodeRequest(rs[0]), EncodeRequests(rs[1..]);
      var stream := EncodeRequests(rs) + cut;
      assert stream == first + (others + cut) && stream[|first|..] == others + cut;
      assert rs[0] in rs + [last];
      RequestRoundTrip(rs[0], others + cut);
      assert RequestsOk(rs[1..] + [last]) by {
        assert forall r :: r in rs[1..] + [last] ==> r in rs + [last];
      }
      StreamDecodes(rs[1..], last, n);
      assert rs == [rs[0]] + rs[1..];
    }
  }

  lemma CutWraps(tokens: Request, n: nat)
    requires |tokens| <= MAX_TOKENS && |EncodeRequest(tokens)| <= MAX_STRING && n <= |EncodeRequest(tokens)|
    ensures !Wraps(EncodeRequest(tokens)[..n])
  {
    hide EncodeRequest, Wraps, Extract;
    var whole := EncodeRequest(tokens);
    RequestRoundTrip(tokens, []);
    assert whole + [] == whole == whole[..n] + whole[n..];
    if Wraps(whole[..n]) { WrapsExtends(whole[..n], whole[n..]); }
  }

  /** From the client's encoder through any chunking to the server's decoder, no request
      is lost, changed, split or reordered. */
  lemma ClientToServer(rs: seq<Request>, last: Request, n: nat, chunks: seq<Bytes>)
    requires RequestsOk(rs + [last]) && n < |EncodeRequest(last)|
             && |EncodeRequests(rs)| + |EncodeRequest(last)| <= MAX_STRING
    requires Concat(chunks) == EncodeRequests(rs) + EncodeRequest(last)[..n]
    ensures Feed([], chunks) == Decoded(rs, EncodeRequest(last)[..n])
  {
    hide Decode, AnyWraps, Feed;
    StreamDecodes(rs, last, n);
    assert [] + Concat(chunks) == Concat(chunks);
    ChunksDoNotMatter([], chunks);
  }

  // ------------------------------------------------------------------ the codec

  datatype Attempt = NeedMore | Thrown(error: ProtocolError) | Got(request: Request)

  class RequestCodec {
    var buffer: Bytes

    constructor ()
      ensures buffer == []
    {
      buffer := [];
    }

    method Append(data: Bytes)
      modifies this
      ensures buffer == old(buffer) + data
    {
      buffer := buffer + data;
    }

    /** The length line at `at`, as both callers of TryParseSize read it. */
    static method ReadLine(b: Bytes, at: nat, error: ProtocolError) returns (l: SizeLine)
      requires at < |b| && b[at] != CR
      ensures l == ReadSize(b, at, error)
    {
      var end := FindCrlf(b, at);
      if end == None { return Unfinished; }
      assert end.value != at;
      var size := ParseSize(b[at + 1..end.value]);
      if size == None { return Malformed(error); }
      l := Announced(size.value, end.value + 2);
    }

    /** The body of the token loop. */
    static method ReadBulk(b: Bytes, cursor: nat) returns (t: OneToken)
      ensures t == ReadToken(b, cursor)
    {
      hide ReadSize;
      if cursor >= |b| { return Wait; }
      if b[cursor] != DOLLAR { return Fail(InvalidPrefix); }
      var line := ReadLine(b, cursor, InvalidBulkLength);
      if line == Unfinished { return Wait; }
      if line.Malformed? { return Fail(line.error); }
      var dataBegin := line.next;
      var dataEnd := (dataBegin + line.size) % TWO64;
      if (dataEnd + 2) % TWO64 > |b| { return Wait; }
      if dataEnd > |b| { return Fail(OutOfRange); }
      if !CrlfAt(b, dataEnd) { return Fail(InvalidTerminator); }
      var available := |b| - dataBegin;
      var count := if line.size <= available then line.size else available;
      t := Token(b[dataBegin..dataBegin + count], dataEnd + 2);
    }

    method TryExtractResp() returns (r: Attempt)
      modifies this
      ensures r == match Extract(old(buffer))
                   case Incomplete => NeedMore
                   case Error(e) => Thrown(e)
                   case Complete(tokens, _) => Got(tokens)
      ensures buffer == if Extract(old(buffer)).Complete? then old(buffer)[Extract(old(buffer)).end..] else old(buffer)
    {
      hide ReadSize, ReadToken;
      if buffer == [] { return NeedMore; }
      if buffer[0] != STAR { return Thrown(NotAnArray); }
      var line := ReadLine(buffer, 0, InvalidArrayLength);
      if line == Unfinished { return NeedMore; }
      if line.Malformed? { return Thrown(line.error); }
      var tokenCount: nat, cursor: nat, tokens, index := line.size, line.next, [], 0;
      if tokenCount > MAX_TOKENS { return Thrown(TooManyTokens); }
      ghost var all := ReadTokens(buffer, cursor, tokenCount);
      hide Extract;
      while index < tokenCount
        invariant index <= tokenCount && buffer == old(buffer)
        invariant all == PrependTokens(tokens, ReadTokens(buffer, cursor, tokenCount - index))
      {
        TurnOf(buffer, tokens, cursor, tokenCount - index);
        var turn := ReadBulk(buffer, cursor);
        match turn {
          case Wait => return NeedMore;
          case Fail(e) => return Thrown(e);
          case Token(token, next) =>
            tokens := tokens + [token];
            cursor := next;
        }
        index := index + 1;
      }
      assert all == Complete(tokens, cursor) by { assert tokens + [] == tokens; }
      r := Got(tokens);
      buffer := buffer[cursor..];
    }

    /** ExtractRequests. An exception leaves the buffer at the offending request. */
    method ExtractRequests() returns (d: Decoded)
      modifies this
      ensures d == Decode(old(buffer)) && buffer == d.rest
    {
      hide Extract;
      var requests := [];
      PrependNone(Decode(buffer));
      while buffer != []
        invariant Decode(old(buffer)) == PrependRequests(requests, Decode(buffer))
        decreases |buffer|
      {
        ghost var before := buffer;
        ExtractEnd(buffer);
        var attempt := TryExtractResp();
        match attempt {
          case NeedMore =>
            assert requests + [] == requests;
            return Decoded(requests, buffer);
          case Thrown(e) => return Failed(e, buffer);
          case Got(request) =>
            PrependTwice(requests, [request], Decode(buffer));
            requests := requests + [request];
        }
      }
      assert Decode([]) == Decoded([], []) by { NothingToDecode(); }
      assert requests + [] == requests;
      d := Decoded(requests, buffer);
    }
  }

  lemma NothingToDecode()
    ensures Decode([]) == Decoded([], [])
  {
  }

  function PrependTokens(ts: Request, e: Extracted): Extracted {
    if e.Complete? then Complete(ts + e.tokens, e.end) else e
  }

  /** One turn of the token loop. */
  lemma TurnOf(b: Bytes, tokens: Request, cursor: nat, count: nat)
    requires count > 0
    ensures var t := ReadToken(b, cursor);
            && (t == Wait ==> ReadTokens(b, cursor, count) == Incomplete)
            && (t.Fail? ==> ReadTokens(b, cursor, count) == Error(t.error))
            && (t.Token? ==> PrependTokens(tokens, ReadTokens(b, cursor, count))
                               == PrependTokens(tokens + [t.token], ReadTokens(b, t.next, count - 1)))
  {
    hide ReadToken;
    var t := ReadToken(b, cursor);
    if t.Token? {
      var e := ReadTokens(b, t.next, count - 1);
      if e.Complete? { assert tokens + ([t.token] + e.tokens) == (tokens + [t.token]) + e.tokens; }
    }
  }

  // ----------------------------------------------------------------- the client

  /** EncodeResp appends token after token. */
  method EncodeResp(tokens: Request) returns (output: Bytes)
    ensures output == EncodeRequest(tokens)
  {
    hide Decimal;
    output := [STAR] + Decimal(|tokens|) + CRLF;
    ghost var head := output;
    for i := 0 to |tokens|
      invariant output + EncodeTokens(tokens[i..]) == head + EncodeTokens(tokens)
    {
      ghost var before := output;
      var token := tokens[i];
      output := output + [DOLLAR];
      output := output + Decimal(|token|);
      output := output + CRLF;
      output := output + token;
      output := output + CRLF;
      assert output == before + EncodeToken(token) by { TokenBytes(before, token, Decimal(|token|)); }
      assert tokens[i..][0] == token && tokens[i..][1..] == tokens[i + 1..];
      assert output + EncodeTokens(tokens[i + 1..]) == before + EncodeTokens(tokens[i..]);
    }
    assert tokens[|tokens|..] == [] && output + [] == output;
  }

  lemma TokenBytes(before: Bytes, token: Bytes, length: Bytes)
    ensures before + [DOLLAR] + length + CRLF + token + CRLF == before + ([DOLLAR] + length + CRLF + token + CRLF)
  {
  }
}
