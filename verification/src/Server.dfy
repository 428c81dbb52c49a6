/** The reactor: connections with non-blocking reads and partial writes. */
module Servers {
  import opened Wrappers
  import opened Bytes
  import opened SortedMap
  import opened Recovery
  import opened RespFormat
  import opened RequestCodecs
  import opened KvStores
  import opened Commands
  import opened ServerHistory

  datatype EpollFlag = EPOLLIN | EPOLLOUT | EPOLLRDHUP | EPOLLERR | EPOLLHUP

  const READING: set<EpollFlag> := {EPOLLIN, EPOLLRDHUP}
  const READING_AND_WRITING: set<EpollFlag> := {EPOLLIN, EPOLLOUT, EPOLLRDHUP}

  /** What read(2) and write(2) answer during one event; when a script runs out they would block. */
  datatype ReadAnswer = Data(bytes: Bytes) | ReadWouldBlock | ReadInterrupted | EndOfStream | ReadError
  datatype WriteAnswer = Took(most: nat) | WriteWouldBlock | WriteInterrupted | WriteError

  const BUFFER_SIZE: nat := 4096

  /** The chunks that a stretch of reads delivers. */
  function Delivered(incoming: seq<ReadAnswer>): seq<Bytes> {
    if incoming == [] then []
    else
      var last := incoming[|incoming| - 1];
      Delivered(incoming[..|incoming| - 1]) + if last.Data? then [last.bytes] else []
  }

  lemma DeliveredNext(incoming: seq<ReadAnswer>, i: nat)
    requires i < |incoming|
    ensures Delivered(incoming[..i + 1])
            == Delivered(incoming[..i]) + if incoming[i].Data? then [incoming[i].bytes] else []
  {
    assert incoming[..i + 1][..i] == incoming[..i];
  }

  /** What is left of a queue after some answers of write. */
  function Left(queue: Bytes, answers: seq<WriteAnswer>): Bytes {
    if answers == [] then queue
    else
      var before, last := Left(queue, answers[..|answers| - 1]), answers[|answers| - 1];
      if last.Took? then Without(before, last.most) else before
  }

  function Without(queue: Bytes, most: nat): Bytes { if most < |queue| then queue[most..] else [] }

  lemma LeftNext(queue: Bytes, answers: seq<WriteAnswer>, i: nat)
    requires i < |answers|
    ensures Left(queue, answers[..i + 1]) ==
            if answers[i].Took? then Without(Left(queue, answers[..i]), answers[i].most) else Left(queue, answers[..i])
  {
    assert answers[..i + 1][..i] == answers[..i];
  }

  lemma LeftNone(queue: Bytes)
    ensures Left(queue, []) == queue
  {
  }

  /** The answers after which the server goes on sending. */
  predicate GoesOn(w: WriteAnswer) { w.Took? || w == WriteInterrupted }

  predicate ReadsOk(incoming: seq<ReadAnswer>) { forall r :: r in incoming && r.Data? ==> 0 < |r.bytes| <= BUFFER_SIZE }
  predicate WritesOk(outgoing: seq<WriteAnswer>) { forall w :: w in outgoing && w.Took? ==> w.most > 0 }

  /** One turn of the event loop. */
  datatype Event =
    | Accepted(fd: int)
    | Ready(fd: int, flags: set<EpollFlag>, incoming: seq<ReadAnswer>, outgoing: seq<WriteAnswer>,
        later: seq<WriteAnswer>)

  /** The events upon which a connection is torn down without a look at it. */
  predicate Broken(events: set<EpollFlag>) { events * {EPOLLERR, EPOLLHUP, EPOLLRDHUP} != {} }

  /** The answers of read up to the first that would block. */
  function Readable(incoming: seq<ReadAnswer>): seq<ReadAnswer> {
    if incoming == [] || incoming[0] == ReadWouldBlock then [] else [incoming[0]] + Readable(incoming[1..])
  }

  /** What one event delivers to the connection with descriptor `fd`, if that stays open. */
  function OneRead(e: Event, fd: int): seq<Bytes> {
    if e.Ready? && e.fd == fd && !Broken(e.flags) && EPOLLIN in e.flags then Delivered(Readable(e.incoming)) else []
  }

  function ReadsOf(events: seq<Event>, fd: int): seq<Bytes> {
    if events == [] then [] else ReadsOf(events[..|events| - 1], fd) + OneRead(events[|events| - 1], fd)
  }

  lemma ReadsNext(events: seq<Event>, from: nat, i: nat, fd: int)
    requires from <= i < |events|
    ensures ReadsOf(events[from..i + 1], fd) == ReadsOf(events[from..i], fd) + OneRead(events[i], fd)
  {
    assert events[from..i + 1][..i - from] == events[from..i];
  }

  lemma ReadsNone(events: seq<Event>, i: nat, fd: int)
    requires i <= |events|
    ensures ReadsOf(events[i..i], fd) == []
  {
  }

  /** Reads that have not come upon one that would block are an initial part of the readable ones. */
  lemma {:induction false} ReadablePrefix(incoming: seq<ReadAnswer>, used: nat)
    requires used <= |incoming| && ReadWouldBlock !in incoming[..used]
    ensures incoming[..used] <= Readable(incoming)
    ensures used == |incoming| || incoming[used] == ReadWouldBlock ==> incoming[..used] == Readable(incoming)
    decreases used
  {
    if used > 0 {
      assert incoming[..used] == [incoming[0]] + incoming[1..][..used - 1];
      assert incoming[0] in incoming[..used];
      ReadablePrefix(incoming[1..], used - 1);
    }
  }

  lemma {:induction false} DeliveredPrefix(a: seq<ReadAnswer>, b: seq<ReadAnswer>)
    requires a <= b
    ensures Delivered(a) <= Delivered(b)
    decreases |b|
  {
    if a != b {
      assert a <= b[..|b| - 1];
      DeliveredPrefix(a, b[..|b| - 1]);
    }
  }

  /** The life of a connection: its descriptor, the event from which on it is served, the event
      that closes it, if any, and what it had read before. */
  datatype Life = Life(fd: int, from: nat, to: Option<nat>, before: seq<Bytes>)

  predicate EventOk(e: Event) { e.Ready? ==> ReadsOk(e.incoming) && WritesOk(e.outgoing) && WritesOk(e.later) }

  class Connection {
    ghost const id: nat
    const codec: RequestCodec
    var writeBuffer: Bytes
    var interestEvents: set<EpollFlag>
    var closeAfterWrite: bool
    ghost var chunks: seq<Bytes>       // what was read
    ghost var sent: Bytes              // what was written
    ghost var ending: Option<Ending>   // why it was closed

    constructor (ghost id: nat)
      ensures this.id == id && fresh(codec) && codec.buffer == []
      ensures writeBuffer == [] && interestEvents == READING && !closeAfterWrite
      ensures chunks == [] && sent == [] && ending == None
    {
      this.id := id;
      this.codec := new RequestCodec();
      this.writeBuffer, this.interestEvents, this.closeAfterWrite := [], READING, false;
      this.chunks, this.sent, this.ending := [], [], None;
    }

    ghost function Seen(): Sheet
      reads this, codec
    {
      Sheet(chunks, codec.buffer, sent, writeBuffer, closeAfterWrite, ending)
    }

    /** No wakeup is lost: the server waits for writability exactly while bytes are left to
        send, and a connection that is to be closed has bytes left to send. */
    ghost predicate Armed()
      reads this
    {
      && interestEvents == (if writeBuffer == [] then READING else READING_AND_WRITING)
      && (closeAfterWrite ==> writeBuffer != [])
    }

    method SetInterest(events: set<EpollFlag>)
      modifies this`interestEvents
      ensures interestEvents == events
    {
      if interestEvents == events { return; }
      interestEvents := events;
    }
  }

  class Reactor {
    const store: KVStore
    const processor: CommandProcessor
    var connections: map<int, Connection>
    ghost var calls: seq<Call>         // everything executed so far, oldest first
    ghost var all: set<Connection>     // every connection ever accepted
    ghost const initial: Contents      // what the store held at first
    ghost const healthy: bool          // and whether a restart would have brought it back

    ghost function Codecs(): set<RequestCodec>
      reads this`all
    {
      set c | c in all :: c.codec
    }

    /** The store holds what the calls have made of the initial map, the answers were honest,
        and, sizes permitting, everything that was answered survives a crash if the store was
        healthy at first or since a completed checkpoint. */
    ghost predicate StoreOk()
      reads this`calls, store, store.index, store.index.head, store.index.live, store.log
    {
      && processor.store == store && store.Valid()
      && store.Map() == MapOfCalls(initial, calls) && Honest(initial, calls)
      && (HealthAfter(healthy, calls) && AllFits() ==>
           store.walEnabled && store.Recoverable() && LogIntact(store.log.data))
    }

    /** Nothing is too large for the formats of log and snapshot. */
    ghost predicate AllFits()
      reads this`calls
    {
      SizesOk(initial) && CallsFit(calls) && |initial| + |calls| < TWO64
    }

    /** No two connections share anything, and every call belongs to a connection. */
    ghost predicate Separate()
      reads this`calls, this`all, this`connections
    {
      && (forall c, d :: c in all && d in all && c != d ==> c.codec != d.codec && c.id != d.id)
      && (forall c :: c in all ==> c.id < |all|)
      && CallsBelow(calls, |all|)
      && (forall fd :: fd in connections ==> connections[fd] in all)
      && (forall fd, other :: fd in connections && other in connections && fd != other ==>
           connections[fd] != connections[other])
    }

    ghost function Own(c: Connection): seq<Call>
      reads this`calls
    {
      CallsOf(calls, c.id)
    }

    /** All is well with every connection other than `busy`. */
    ghost predicate OthersOk(busy: Connection?)
      reads this`calls, this`all, this`connections, all, Codecs()
    {
      && (forall c :: c in all && c != busy ==> Past(Own(c), c.Seen()))
      && (forall fd :: fd in connections && connections[fd] != busy && connections[fd] in all ==>
            Serving(Own(connections[fd]), connections[fd].Seen()) && connections[fd].Armed())
    }

    /** What holds between two handlers. */
    ghost predicate Valid()
      reads this`calls, this`all, this`connections, all, Codecs(),
            store, store.index, store.index.head, store.index.live, store.log
    {
      StoreOk() && Separate() && OthersOk(null)
    }

    constructor (store: KVStore)
      requires store.Valid()
      ensures Valid() && this.store == store && connections == map[] && calls == [] && all == {}
      ensures fresh(processor) && initial == store.Map()
      ensures healthy == (store.walEnabled && store.Recoverable() && LogIntact(store.log.data))
    {
      hide KVStore.Valid, KVStore.Map, KVStore.Recoverable, LogIntact, SizesOk, Past, Serving, Updated, Parse, Respond;
      this.store := store;
      this.processor := new CommandProcessor(store);
      this.connections, this.calls, this.all, this.initial := map[], [], {}, store.Map();
      this.healthy := store.walEnabled && store.Recoverable() && LogIntact(store.log.data);
    }

    /** Accepting a client. The kernel never hands out a descriptor that is still open. */
    method AcceptConnection(fd: int)
      requires Valid() && fd !in connections
      modifies this`all, this`connections
      ensures Valid() && fd in connections && fresh(connections[fd]) && fresh(connections[fd].codec)
      ensures connections[fd].Seen() == Sheet([], [], [], [], false, None) && connections[fd].interestEvents == READING
      ensures calls == old(calls) && all == old(all) + {connections[fd]}
      ensures connections == old(connections)[fd := connections[fd]]
    {
      hide KVStore.Valid, KVStore.Map, Past, Serving, CallsOf, StoreOk;
      var c := new Connection(|all|);
      NoCallsOf(calls, c.id);
      NothingServed(c.Seen());
      ServingIsPast([], c.Seen());
      all := all + {c};
      connections := connections[fd := c];
      SeparateFromNew(c, fd);
      hide Separate;
      OthersBesideNew(c, fd);
    }

    twostate lemma SeparateFromNew(new c: Connection, fd: int)
      requires old(Separate()) && all == old(all) + {c} && connections == old(connections)[fd := c]
               && calls == old(calls)
      requires c !in old(all) && c.id == |old(all)| && forall d :: d in old(all) ==> d.codec != c.codec
      ensures Separate()
    {
      assert |all| == |old(all)| + 1;
    }

    twostate lemma OthersBesideNew(new c: Connection, fd: int)
      requires old(OthersOk(null)) && old(Separate())
      requires all == old(all) + {c} && connections == old(connections)[fd := c] && calls == old(calls)
               && c !in old(all)
      requires forall d :: d in old(all) ==> d.Seen() == old(d.Seen()) && d.Armed() == old(d.Armed())
      requires Serving(Own(c), c.Seen()) && Past(Own(c), c.Seen()) && c.Armed()
      ensures OthersOk(null)
    {
      hide Past, Serving, CallsOf, Connection.Seen, Connection.Armed;
    }

    static lemma NothingServed(s: Sheet)
      requires s == Sheet([], [], [], [], false, None)
      ensures Serving([], s)
    {
    }

    // ------------------------------------------------------------- one request

    /** Execute a request and queue the answer. */
    method ServeRequest(c: Connection, request: Request, pad: Bytes) returns (ghost call: Call)
      requires StoreOk() && |pad| == 3
      modifies this`calls, store, store.index, store.index.head, store.index.live, store.log
      modifies c`writeBuffer, c`closeAfterWrite
      ensures StoreOk() && forall n :: n in store.index.live ==> n in old(store.index.live) || fresh(n)
      ensures calls == old(calls) + [call] && call.conn == c.id && call.request == request && call.response != []
      ensures c.writeBuffer == old(c.writeBuffer) + call.response
      ensures c.closeAfterWrite == (old(c.closeAfterWrite) || IsQuit(request))
    {
      hide KVStore.Valid, KVStore.Map, KVStore.Recoverable, LogIntact, SizesOk, ToUpper, Parse, Updated, Answer,
        CutBetween, MapOfCalls, Honest, CallsFit, TokensFit;
      ghost var m := store.Map();
      var disk: DiskAnswers := *;
      var response, checkpoint, flushed := processor.Execute(request, pad, disk);
      call := Call(c.id, request, checkpoint, flushed, response);
      HonestNext(initial, calls, call);
      CallFits(call, m);
      HealthNext(healthy, calls, call);
      calls := calls + [call];
      assert StoreOk();
      hide StoreOk;
      var isQuit := request != [] && ToUpper(request[0]) == Ascii("QUIT");
      if isQuit { c.closeAfterWrite := true; }
      c.writeBuffer := c.writeBuffer + response;
    }

    /** When all calls fit, so do those so far, the map they have made, and the last request. */
    lemma CallFits(call: Call, m: Contents)
      requires m == MapOfCalls(initial, calls)
      ensures CallsFit(calls + [call]) && SizesOk(initial) && |initial| + |calls| < TWO64 ==>
                CallsFit(calls) && TokensFit(call.request) && SizesOk(m)
    {
      hide SizesOk, TokensFit, MapOfCalls;
      if CallsFit(calls + [call]) && SizesOk(initial) && |initial| + |calls| < TWO64 {
        assert call in calls + [call] && forall k :: k in calls ==> k in calls + [call];
        CallsKeepSizes(initial, calls);
      }
    }

    /** The loop over the requests of one read. */
    method ServeRequests(c: Connection, requests: seq<Request>)
      requires StoreOk() && c.sent + c.writeBuffer == Output(Own(c))
      modifies this`calls, store, store.index, store.index.head, store.index.live, store.log
      modifies c`writeBuffer, c`closeAfterWrite
      ensures StoreOk() && forall n :: n in store.index.live ==> n in old(store.index.live) || fresh(n)
      ensures Answered(old(calls), calls, c.id, requests) && forall k :: k in calls ==>
                k in old(calls) || k.conn == c.id
      ensures c.sent + c.writeBuffer == Output(Own(c))
      ensures c.closeAfterWrite == (old(c.closeAfterWrite) || AnyQuit(requests))
    {
      hide StoreOk, Answered, CallsOf, Output, IsQuit, AnyQuit;
      AnsweredNone(calls, c.id);
      NoQuit();
      for i := 0 to |requests|
        invariant StoreOk() && forall n :: n in store.index.live ==> n in old(store.index.live) || fresh(n)
        invariant Answered(old(calls), calls, c.id, requests[..i]) && forall k :: k in calls ==>
                    k in old(calls) || k.conn == c.id
        invariant c.sent + c.writeBuffer == Output(Own(c))
        invariant c.closeAfterWrite == (old(c.closeAfterWrite) || AnyQuit(requests[..i]))
      {
        ghost var before := calls;
        var x: byte, y: byte, z: byte := *, *, *;
        ghost var call := ServeRequest(c, requests[i], [x, y, z]);
        AnsweredNext(old(calls), before, c.id, requests[..i], call);
        assert requests[..i + 1] == requests[..i] + [requests[i]];
        QuitInEither(requests[..i], [requests[i]]);
        OneQuit(requests[i]);
      }
      assert requests[..|requests|] == requests;
    }

    static lemma NoQuit()
      ensures !AnyQuit([])
    {
    }

    static lemma OneQuit(r: Request)
      ensures AnyQuit([r]) == IsQuit(r)
    {
      hide IsQuit;
      assert r in [r];
    }

    // ---------------------------------------------------------------- one read

    /** Append what was read, extract, execute. False when the decoder throws. */
    method ServeChunk(c: Connection, bytes: Bytes) returns (ok: bool)
      requires StoreOk() && Serving(Own(c), c.Seen())
      modifies this`calls, store, store.index, store.index.head, store.index.live, store.log
      modifies c`writeBuffer, c`closeAfterWrite, c`chunks, c.codec
      ensures StoreOk() && forall n :: n in store.index.live ==> n in old(store.index.live) || fresh(n)
      ensures old(calls) <= calls && forall k :: k in calls ==> k in old(calls) || k.conn == c.id
      ensures forall other :: other != c.id ==> CallsOf(calls, other) == CallsOf(old(calls), other)
      ensures c.chunks == old(c.chunks) + [bytes]
      ensures ok ==> Serving(Own(c), c.Seen()) && old(c.writeBuffer) <= c.writeBuffer
                     && (old(c.closeAfterWrite ==> c.writeBuffer != []) ==> (c.closeAfterWrite ==> c.writeBuffer != []))
      ensures !ok ==> calls == old(calls) && Decode(old(c.codec.buffer) + bytes).Failed?
    {
      hide StoreOk, CallsOf, Output, AnyQuit, Feed, Decode, RequestsOf;
      ghost var before, seen := calls, c.Seen();
      c.chunks := c.chunks + [bytes];
      c.codec.Append(bytes);
      var decoded := c.codec.ExtractRequests();
      if decoded.Failed? { return false; }
      ServeRequests(c, decoded.requests);
      ServedChunk(before, calls, c.id, seen, bytes, c.Seen());
      QueueGrows(c.sent, seen.pending, c.writeBuffer, Output(CallsOf(before, c.id)), Output(CallsOf(calls, c.id)));
      if decoded.requests == [] { NoQuit(); }
      ok := true;
    }

    static lemma QueueGrows(sent: Bytes, pending: Bytes, pending': Bytes, output: Bytes, output': Bytes)
      requires sent + pending == output <= output' == sent + pending'
      ensures pending <= pending' && (output != output' ==> pending' != [])
    {
      assert pending == output[|sent|..] && pending' == output'[|sent|..];
    }

    // ---------------------------------------------------------- one connection

    /** What an iterator into the connection map points to. */
    ghost predicate At(fd: int, c: Connection)
      reads this`connections, this`all
    {
      fd in connections && connections[fd] == c && c in all
    }

    /** Handlers touch nothing of the other connections. */
    twostate lemma OthersStay(busy: Connection)
      requires old(OthersOk(busy)) && all == old(all) && connections == old(connections)
      requires forall d :: d in all && d != busy ==>
                 d.Seen() == old(d.Seen()) && d.Armed() == old(d.Armed()) && d.id != busy.id
      requires forall other :: other != busy.id ==> CallsOf(calls, other) == CallsOf(old(calls), other)
      ensures OthersOk(busy)
    {
      hide Past, Serving, CallsOf, Connection.Seen, Connection.Armed;
    }

    /** A connection that is served and armed need not be set apart. */
    lemma Rejoin(c: Connection)
      requires OthersOk(c) && Serving(Own(c), c.Seen()) && c.Armed()
      ensures OthersOk(null)
    {
      hide Serving, Past, CallsOf, Connection.Armed;
      ServingIsPast(Own(c), c.Seen());
    }

    lemma SetApart(fd: int, c: Connection)
      requires OthersOk(null) && At(fd, c)
      ensures OthersOk(c) && Serving(Own(c), c.Seen()) && c.Armed()
    {
      hide Serving, Past, CallsOf, Connection.Armed;
    }

    /** epoll_ctl DEL and erase: the connection is gone. */
    method CloseConnection(fd: int, c: Connection, ghost ending: Ending)
      requires At(fd, c) && Separate() && OthersOk(c) && Past(Own(c), c.Seen().(ending := Some(ending)))
      modifies this`connections, c`ending
      ensures connections == old(connections) - {fd} && c.ending == Some(ending)
      ensures Separate() && OthersOk(null)
    {
      hide Past, Serving, CallsOf;
      c.ending := Some(ending);
      connections := connections - {fd};
      assert Separate();
      hide Separate;
      Departed(c);
    }

    twostate lemma Departed(c: Connection)
      requires old(OthersOk(c)) && all == old(all) && calls == old(calls)
      requires forall fd :: fd in connections ==>
                 fd in old(connections) && connections[fd] == old(connections)[fd] && connections[fd] != c
      requires forall d :: d in all && d != c ==> d.Seen() == old(d.Seen()) && d.Armed() == old(d.Armed())
      requires Past(Own(c), c.Seen())
      ensures OthersOk(null)
    {
      hide Past, Serving, CallsOf, Connection.Seen, Connection.Armed;
    }

    /** One write(2): bytes move from the queue to the client. */
    method Send(c: Connection, most: nat)
      requires most > 0 && c.writeBuffer != [] && Serving(Own(c), c.Seen())
      modifies c`sent, c`writeBuffer
      ensures Serving(Own(c), c.Seen()) && |c.writeBuffer| < |old(c.writeBuffer)| && old(c.sent) <= c.sent
      ensures c.writeBuffer == Without(old(c.writeBuffer), most)
              && c.sent + c.writeBuffer == old(c.sent + c.writeBuffer)
    {
      hide Serving, CallsOf;
      var taken := if most < |c.writeBuffer| then most else |c.writeBuffer|;
      SentSome(Own(c), c.Seen(), taken,
          c.Seen().(sent := c.sent + c.writeBuffer[..taken], pending := c.writeBuffer[taken..]));
      c.sent := c.sent + c.writeBuffer[..taken];
      c.writeBuffer := c.writeBuffer[taken..];
    }

    /**
     * Send until everything is gone or the kernel takes no more; `used` of its answers are
     * consumed, and exactly what they took has left the queue. The connection stays open with
     * nothing left to send, or waiting for an event because the next answer would block; it is
     * closed by a write error, or when everything has been sent and closing was asked for.
     */
    method WriteToConnection(fd: int, c: Connection, outgoing: seq<WriteAnswer>) returns (open: bool, ghost used: nat)
      requires At(fd, c) && Separate() && OthersOk(c) && Serving(Own(c), c.Seen()) && WritesOk(outgoing)
      modifies this`connections, c`sent, c`writeBuffer, c`interestEvents, c`ending
      ensures Separate() && OthersOk(null)
      ensures connections == if open then old(connections) else old(connections) - {fd}
      ensures used <= |outgoing| && old(c.sent) <= c.sent
      ensures c.writeBuffer == Left(old(c.writeBuffer), outgoing[..used])
      ensures c.sent + c.writeBuffer == old(c.sent + c.writeBuffer)
      ensures forall k :: 0 <= k < used && (k < used - 1 || c.ending != Some(WriteFailed)) ==> GoesOn(outgoing[k])
      ensures open ==> c.ending == None && (c.writeBuffer == [] ==> !c.closeAfterWrite)
                       && (c.writeBuffer != [] ==> used == |outgoing| || outgoing[used] == WriteWouldBlock)
      ensures !open ==> (c.ending == Some(WriteFailed) && used > 0 && outgoing[used - 1] == WriteError)
                        || (c.ending == Some(Finished) && c.closeAfterWrite && c.writeBuffer == [])
    {
      hide Serving, Past, CallsOf, Separate, OthersOk, Left;
      assert c.ending == None by { ServingOpen(c); }
      LeftNone(c.writeBuffer);
      assert outgoing[..0] == [];
      var i := 0;
      while c.writeBuffer != []
        invariant Separate() && OthersOk(c) && Serving(Own(c), c.Seen()) && At(fd, c)
        invariant connections == old(connections) && i <= |outgoing| && c.ending == None && old(c.sent) <= c.sent
        invariant forall k :: 0 <= k < i ==> GoesOn(outgoing[k])
        invariant c.writeBuffer == Left(old(c.writeBuffer), outgoing[..i])
        invariant c.sent + c.writeBuffer == old(c.sent + c.writeBuffer)
        decreases |outgoing| - i
      {
        label L:
        used := i;
        if i == |outgoing| || outgoing[i] == WriteWouldBlock {
          Await(c, READING_AND_WRITING);
          return true, used;
        }
        var answer := outgoing[i];
        LeftNext(old(c.writeBuffer), outgoing, i);
        i := i + 1;
        if answer == WriteInterrupted { continue; }
        if answer == WriteError {
          Ended(Own(c), c.Seen(), c.Seen().(ending := Some(WriteFailed)));
          CloseConnection(fd, c, WriteFailed);
          return false, i;
        }
        Send(c, answer.most);
        StillOthers@L(c);
      }
      used := i;
      if c.closeAfterWrite {
        Ended(Own(c), c.Seen(), c.Seen().(ending := Some(Finished)));
        CloseConnection(fd, c, Finished);
        return false, used;
      }
      Await(c, READING);
      open := true;
    }

    lemma ServingOpen(c: Connection)
      requires Serving(Own(c), c.Seen())
      ensures c.ending == None
    {
    }

    /** SetConnectionInterest, after which the connection waits for its next event. */
    method Await(c: Connection, events: set<EpollFlag>)
      requires OthersOk(c) && Serving(Own(c), c.Seen())
      requires events == (if c.writeBuffer == [] then READING else READING_AND_WRITING)
               && (c.closeAfterWrite ==> c.writeBuffer != [])
      modifies c`interestEvents
      ensures OthersOk(null)
    {
      hide Serving, Past, CallsOf, OthersOk;
      c.SetInterest(events);
      StillOthers(c);
      Rejoin(c);
    }

    /** Only `busy` has changed, and nothing was executed. */
    twostate lemma StillOthers(busy: Connection)
      requires old(OthersOk(busy)) && all == old(all) && connections == old(connections) && calls == old(calls)
      requires forall d :: d in all && d != busy ==> d.Seen() == old(d.Seen()) && d.Armed() == old(d.Armed())
      ensures OthersOk(busy)
    {
      hide Past, Serving, CallsOf, Connection.Seen, Connection.Armed;
    }

    /** Serving `c` has added calls of `c` only. */
    twostate lemma StillSeparate(c: Connection)
      requires old(Separate()) && c in all && all == old(all) && connections == old(connections)
      requires forall k :: k in calls ==> k in old(calls) || k.conn == c.id
      ensures Separate()
    {
    }

    twostate lemma OthersNotServed(c: Connection)
      requires old(OthersOk(c)) && Separate() && c in all && all == old(all) && connections == old(connections)
      requires forall d :: d in all && d != c ==> d.Seen() == old(d.Seen()) && d.Armed() == old(d.Armed())
      requires forall other :: other != c.id ==> CallsOf(calls, other) == CallsOf(old(calls), other)
      ensures OthersOk(c)
    {
      hide Past, Serving, CallsOf, Connection.Seen, Connection.Armed, CallsBelow;
      OthersStay(c);
    }

    /** Serve one chunk, or close the connection when the decoder throws on it. */
    method ReceiveChunk(fd: int, c: Connection, bytes: Bytes) returns (ok: bool)
      requires StoreOk() && Separate() && OthersOk(c) && Serving(Own(c), c.Seen()) && At(fd, c)
      requires c.closeAfterWrite ==> c.writeBuffer != []
      modifies this`calls, this`connections, c`writeBuffer, c`closeAfterWrite, c`chunks, c`ending, c.codec
      modifies store, store.index, store.index.head, store.index.live, store.log
      ensures StoreOk() && forall n :: n in store.index.live ==> n in old(store.index.live) || fresh(n)
      ensures Separate() && old(calls) <= calls && c.chunks == old(c.chunks) + [bytes]
      ensures ok ==> connections == old(connections) && OthersOk(c) && Serving(Own(c), c.Seen())
                     && At(fd, c) && c.ending == None
                     && old(c.writeBuffer) <= c.writeBuffer && (c.closeAfterWrite ==> c.writeBuffer != [])
      ensures !ok ==> connections == old(connections) - {fd} && OthersOk(null) && c.ending == Some(Refused)
    {
      hide Serving, Past, CallsOf, Separate, OthersOk, StoreOk, Feed, Decode;
      ghost var seen := c.Seen();
      ServingOpen(c);
      ok := ServeChunk(c, bytes);
      StillSeparate(c);
      OthersNotServed(c);
      if !ok {
        EndedRefused(Own(c), seen, bytes, c.Seen().(ending := Some(Refused)));
        CloseConnection(fd, c, Refused);
      }
    }

    /**
     * The read loop: read until it would block, executing every request as soon as it is
     * complete; `used` of the answers of read are consumed, and what they delivered is what
     * the connection has read. It is closed by a read error, by the end of the stream or by a
     * chunk on which the decoder throws.
     */
    method ReadAvailable(fd: int, c: Connection, incoming: seq<ReadAnswer>) returns (open: bool, ghost used: nat)
      requires Valid() && At(fd, c) && ReadsOk(incoming)
      modifies this`calls, this`connections, c`writeBuffer, c`closeAfterWrite, c`chunks, c`ending, c.codec
      modifies store, store.index, store.index.head, store.index.live, store.log
      ensures used <= |incoming| && old(calls) <= calls && (open <==> c.ending == None)
      ensures StoreOk() && forall n :: n in store.index.live ==> n in old(store.index.live) || fresh(n)
      ensures Separate()
      ensures open ==> connections == old(connections) && OthersOk(c) && Serving(Own(c), c.Seen()) && At(fd, c)
                       && (c.closeAfterWrite ==> c.writeBuffer != []) && old(c.writeBuffer) <= c.writeBuffer
                       && (used == |incoming| || incoming[used] == ReadWouldBlock)
      ensures !open ==> connections == old(connections) - {fd} && OthersOk(null)
      ensures c.chunks == old(c.chunks) + Delivered(incoming[..used])
      ensures ReadWouldBlock !in incoming[..used]
      ensures c.ending in {None, Some(ReadFailed), Some(PeerGone), Some(Refused)}
      ensures c.ending == Some(ReadFailed) ==> used > 0 && incoming[used - 1] == ReadError
      ensures c.ending == Some(PeerGone) ==> used > 0 && incoming[used - 1] == EndOfStream
      ensures c.ending == Some(Refused) ==> used > 0 && incoming[used - 1].Data?
    {
      hide Serving, Past, CallsOf, Separate, OthersOk, StoreOk, Feed, Decode, Delivered;
      SetApart(fd, c);
      ServingOpen(c);
      assert Delivered(incoming[..0]) == [] by { NothingDelivered(); }
      var i := 0;
      used := 0;
      while i < |incoming|
        invariant StoreOk() && forall n :: n in store.index.live ==> n in old(store.index.live) || fresh(n)
        invariant Separate() && OthersOk(c) && Serving(Own(c), c.Seen()) && At(fd, c)
        invariant connections == old(connections) && old(calls) <= calls && used == i <= |incoming|
        invariant old(c.writeBuffer) <= c.writeBuffer
        invariant c.ending == None && (c.closeAfterWrite ==> c.writeBuffer != [])
        invariant c.chunks == old(c.chunks) + Delivered(incoming[..i]) && ReadWouldBlock !in incoming[..i]
      {
        var answer := incoming[i];
        DeliveredNext(incoming, i);
        i := i + 1;
        match answer {
          case ReadWouldBlock => return true, used;
          case ReadInterrupted =>
          case ReadError =>
            Ended(Own(c), c.Seen(), c.Seen().(ending := Some(ReadFailed)));
            CloseConnection(fd, c, ReadFailed);
            return false, i;
          case EndOfStream =>
            Ended(Own(c), c.Seen(), c.Seen().(ending := Some(PeerGone)));
            CloseConnection(fd, c, PeerGone);
            return false, i;
          case Data(bytes) =>
            var ok := ReceiveChunk(fd, c, bytes);
            if !ok { return false, i; }
        }
        used := i;
      }
      open := true;
    }

    /**
     * Read what there is, then send; `used` of the answers of read are consumed, and what they
     * delivered is what the connection has read; `taken` of those of write are, and what they
     * took has been sent. The connection is closed by a read error, by the end of the stream,
     * by a chunk on which the decoder throws, or in the course of sending.
     */
    method ReadFromConnection(fd: int, c: Connection, incoming: seq<ReadAnswer>, outgoing: seq<WriteAnswer>)
      returns (open: bool, ghost used: nat, ghost taken: nat)
      requires Valid() && At(fd, c) && ReadsOk(incoming) && WritesOk(outgoing)
      modifies this`calls, this`connections, c, c.codec
      modifies store, store.index, store.index.head, store.index.live, store.log
      ensures Valid() && forall n :: n in store.index.live ==> n in old(store.index.live) || fresh(n)
      ensures connections == if open then old(connections) else old(connections) - {fd}
      ensures old(calls) <= calls && (open <==> c.ending == None)
      ensures used <= |incoming| && c.chunks == old(c.chunks) + Delivered(incoming[..used])
      ensures ReadWouldBlock !in incoming[..used] && taken <= |outgoing|
      ensures Flowed(old(c.sent), c.sent, c.writeBuffer, outgoing[..taken])
      ensures open && c.writeBuffer != [] ==> taken == |outgoing| || outgoing[taken] == WriteWouldBlock
      ensures c.ending == Some(ReadFailed) ==> used > 0 && incoming[used - 1] == ReadError
      ensures c.ending == Some(PeerGone) ==> used > 0 && incoming[used - 1] == EndOfStream
      ensures c.ending == Some(Refused) ==> used > 0 && incoming[used - 1].Data?
      ensures c.ending == Some(WriteFailed) ==> taken > 0 && outgoing[taken - 1] == WriteError
      ensures c.ending == Some(Finished) ==> c.closeAfterWrite && c.writeBuffer == []
      ensures c.ending in {None, Some(WriteFailed), Some(Finished)} ==>
                used == |incoming| || incoming[used] == ReadWouldBlock
    {
      hide Serving, Past, CallsOf, Separate, OthersOk, StoreOk, Delivered, Left;
      SetApart(fd, c);
      taken := 0;
      assert outgoing[..0] == [];
      open, used := ReadAvailable(fd, c, incoming);
      NothingFlowed(c.sent, c.writeBuffer);
      if !open { return; }
      if c.writeBuffer != [] {
        ghost var queue := c.writeBuffer;
        open, taken := WriteToConnection(fd, c, outgoing);
        FlowedFrom(old(c.sent), queue, c.sent, c.writeBuffer, outgoing[..taken]);
      } else {
        Rejoin(c);
      }
    }

    static lemma NothingDelivered()
      ensures Delivered([]) == []
    {
    }

    /** From what was queued the kernel has taken what its answers say, and nothing is lost. */
    static ghost predicate Flowed(sent: Bytes, sent': Bytes, queue': Bytes, answers: seq<WriteAnswer>) {
      sent <= sent' && queue' == Left((sent' + queue')[|sent|..], answers)
    }

    static lemma NothingFlowed(sent: Bytes, queue: Bytes)
      ensures Flowed(sent, sent, queue, [])
    {
      assert (sent + queue)[|sent|..] == queue;
    }

    static lemma FlowedFrom(sent: Bytes, queue: Bytes, sent': Bytes, queue': Bytes, answers: seq<WriteAnswer>)
      requires sent <= sent' && sent' + queue' == sent + queue && queue' == Left(queue, answers)
      ensures Flowed(sent, sent', queue', answers)
    {
      assert (sent + queue)[|sent|..] == queue;
    }

    /** No other connection has read, queued, sent or ended anything. */
    twostate predicate OthersSame(c: Connection?)
      reads this`all, all, Codecs()
    {
      all == old(all) && forall d :: d in all && d != c ==> d.Seen() == old(d.Seen())
    }

    /** It has read what the answers of read deliver, up to the first that would block, unless it
        is closed before. */
    static predicate ReadUpTo(events: set<EpollFlag>, incoming: seq<ReadAnswer>, used: nat, ending: Option<Ending>) {
      && used <= |incoming| && ReadWouldBlock !in incoming[..used] && (EPOLLIN !in events ==> used == 0)
      && (EPOLLIN in events && ending in {None, Some(WriteFailed), Some(Finished)} ==>
            used == |incoming| || incoming[used] == ReadWouldBlock)
      && (ending == Some(ReadFailed) ==> used > 0 && incoming[used - 1] == ReadError)
      && (ending == Some(PeerGone) ==> used > 0 && incoming[used - 1] == EndOfStream)
      && (ending == Some(Refused) ==> used > 0 && incoming[used - 1].Data?)
    }

    /** Sending has stopped because nothing is left, or the next write would block, or a write failed. */
    static predicate SentUpTo(events: set<EpollFlag>, outgoing: seq<WriteAnswer>, later: seq<WriteAnswer>,
                              taken: nat, after: nat, ending: Option<Ending>, queue: Bytes) {
      && taken <= |outgoing| && after <= |later|
      && (EPOLLIN !in events ==> taken == 0) && (EPOLLOUT !in events ==> after == 0)
      && (ending == None && queue != [] && EPOLLOUT in events ==> after == |later| || later[after] == WriteWouldBlock)
      && (ending == None && queue != [] && EPOLLOUT !in events && EPOLLIN in events ==>
            taken == |outgoing| || outgoing[taken] == WriteWouldBlock)
      && (ending == Some(WriteFailed) ==>
            (taken > 0 && outgoing[taken - 1] == WriteError) || (after > 0 && later[after - 1] == WriteError))
    }

    /** What one event has done to the open connection `c`. */
    twostate predicate Handled(fd: int, c: Connection, events: set<EpollFlag>, incoming: seq<ReadAnswer>,
                               outgoing: seq<WriteAnswer>, later: seq<WriteAnswer>, used: nat, taken: nat, after: nat)
      reads this`calls, this`connections, c
    {
      && (fd in connections <==> c.ending == None)
      && ReadUpTo(events, incoming, used, c.ending)
      && c.chunks == old(c.chunks) + Delivered(incoming[..used])
      && (EPOLLIN !in events ==> calls == old(calls))
      && SentUpTo(events, outgoing, later, taken, after, c.ending, c.writeBuffer)
      && Flowed(old(c.sent), c.sent, c.writeBuffer, outgoing[..taken] + later[..after])
      && (c.ending == Some(Finished) ==> c.closeAfterWrite && c.writeBuffer == [])
    }

    /** Reading and writing as the flags of an event say. */
    method ServeEvent(fd: int, c: Connection, events: set<EpollFlag>, incoming: seq<ReadAnswer>,
                      outgoing: seq<WriteAnswer>, later: seq<WriteAnswer>)
      returns (ghost used: nat, ghost taken: nat, ghost after: nat)
      requires Valid() && At(fd, c) && ReadsOk(incoming) && WritesOk(outgoing) && WritesOk(later)
      modifies this`calls, this`connections, c, c.codec
      modifies store, store.index, store.index.head, store.index.live, store.log
      ensures Valid() && forall n :: n in store.index.live ==> n in old(store.index.live) || fresh(n)
      ensures connections == old(connections) || connections == old(connections) - {fd}
      ensures old(calls) <= calls
      ensures Handled(fd, c, events, incoming, outgoing, later, used, taken, after)
    {
      hide Serving, Past, CallsOf, OthersOk, StoreOk, Delivered, Left, Separate, Flowed, Connection.Armed, WritesOk,
          ReadsOk;
      used, taken, after := 0, 0, 0;
      SetApart(fd, c);
      ServingOpen(c);
      assert Delivered(incoming[..0]) == [] by { NothingDelivered(); }
      NothingFlowed(c.sent, c.writeBuffer);
      assert outgoing[..0] + later[..0] == [];
      if EPOLLIN in events {
        var open;
        open, used, taken := ReadFromConnection(fd, c, incoming, outgoing);
        assert outgoing[..taken] + later[..0] == outgoing[..taken];
        if !open { return; }
      }
      if EPOLLOUT in events {
        SetApart(fd, c);
        ghost var sent, queue := c.sent, c.writeBuffer;
        var open;
        open, after := WriteToConnection(fd, c, later);
        FlowedOn(old(c.sent), sent, queue, c.sent, c.writeBuffer, outgoing[..taken], later[..after]);
      }
    }

    /** The connection has ended, with nothing more read, executed, queued or sent. */
    twostate predicate TornDown(c: Connection)
      reads c, c.codec
    {
      && c.ending == Some(PeerGone) && c.chunks == old(c.chunks) && c.codec.buffer == old(c.codec.buffer)
      && c.sent == old(c.sent) && c.writeBuffer == old(c.writeBuffer)
    }

    method TearDown(fd: int, c: Connection)
      requires Valid() && At(fd, c)
      modifies this`connections, c`ending
      ensures Valid() && connections == old(connections) - {fd}
      ensures TornDown(c)
    {
      hide Serving, Past, CallsOf, OthersOk, StoreOk, Separate;
      SetApart(fd, c);
      Ended(Own(c), c.Seen(), c.Seen().(ending := Some(PeerGone)));
      CloseConnection(fd, c, PeerGone);
    }

    /**
     * One epoll event. Events for connections that are gone are ignored; an error, a
     * hangup or a half-closed peer tears the connection down; otherwise it is read and
     * written as the flags say. No other connection is affected.
     */
    method HandleConnectionEvent(fd: int, events: set<EpollFlag>, incoming: seq<ReadAnswer>,
                                 outgoing: seq<WriteAnswer>, later: seq<WriteAnswer>)
      returns (ghost used: nat, ghost taken: nat, ghost after: nat)
      requires Valid() && ReadsOk(incoming) && WritesOk(outgoing) && WritesOk(later)
      modifies this`calls, this`connections, all, Codecs()
      modifies store, store.index, store.index.head, store.index.live, store.log
      ensures Valid() && forall n :: n in store.index.live ==> n in old(store.index.live) || fresh(n)
      ensures connections == old(connections) || connections == old(connections) - {fd}
      ensures old(calls) <= calls
      ensures fd !in old(connections) ==> connections == old(connections) && calls == old(calls) && OthersSame(null)
      ensures fd in old(connections) ==> OthersSame(old(connections)[fd])
      ensures fd in old(connections) && Broken(events) ==>
                fd !in connections && calls == old(calls) && TornDown(old(connections)[fd])
      ensures fd in old(connections) && !Broken(events) ==>
                Handled(fd, old(connections)[fd], events, incoming, outgoing, later, used, taken, after)
    {
      hide Serving, Past, CallsOf, OthersOk, StoreOk, Handled;
      used, taken, after := 0, 0, 0;
      if fd !in connections { return; }
      var c := connections[fd];
      assert At(fd, c) && c.codec in Codecs();
      assert forall d :: d in all && d != c ==> d.codec != c.codec;
      hide Separate;
      if Broken(events) {
        TearDown(fd, c);
        return;
      }
      used, taken, after := ServeEvent(fd, c, events, incoming, outgoing, later);
    }

    static lemma FlowedOn(sent0: Bytes, sent: Bytes, queue: Bytes, sent': Bytes, queue': Bytes,
                          first: seq<WriteAnswer>, second: seq<WriteAnswer>)
      requires Flowed(sent0, sent, queue, first) && sent <= sent' && sent' + queue' == sent + queue
      requires queue' == Left(queue, second)
      ensures Flowed(sent0, sent', queue', first + second)
    {
      assert (sent' + queue')[|sent0|..] == (sent + queue)[|sent0|..];
      LeftBoth((sent + queue)[|sent0|..], first, second);
    }

    static lemma {:induction false} LeftBoth(queue: Bytes, first: seq<WriteAnswer>, second: seq<WriteAnswer>)
      ensures Left(queue, first + second) == Left(Left(queue, first), second)
      decreases |second|
    {
      if second == [] {
        assert first + [] == first;
      } else {
        LeftBoth(queue, first, second[..|second| - 1]);
        assert (first + second)[..|first + second| - 1] == first + second[..|second| - 1];
      }
    }

    /** What is known of all connections, open and closed. */
    ghost function Sheets(): map<Connection, Sheet>
      reads this`all, all, Codecs()
    {
      map c | c in all :: c.Seen()
    }

    /** A connection has read exactly what the events so far have delivered to its descriptor,
        since it was accepted and until it was closed. */
    static ghost predicate LifeOk(events: seq<Event>, i: nat, open: map<int, Connection>, sheet: Sheet,
                                  c: Connection, life: Life)
      requires i <= |events|
    {
      && life.from <= i
      && (life.from == 0 || (events[life.from - 1] == Accepted(life.fd) && life.before == []))
      && match life.to
         case None =>
           && life.fd in open && open[life.fd] == c
           && sheet.chunks == life.before + ReadsOf(events[life.from..i], life.fd)
         case Some(k) =>
           && life.from <= k < i && sheet.ending.Some?
           && exists part :: part <= OneRead(events[k], life.fd)
                && sheet.chunks == life.before + ReadsOf(events[life.from..k], life.fd) + part
    }

    /** After event `a` a connection is served under the descriptor. */
    static ghost predicate Registered(lives: map<Connection, Life>, fd: int, a: nat) {
      exists c :: c in lives && lives[c].fd == fd && lives[c].from <= a + 1
                  && (lives[c].to == None || lives[c].to.value > a)
    }

    static ghost predicate LivesOk(events: seq<Event>, i: nat, lives: map<Connection, Life>,
                                   open: map<int, Connection>, sheets: map<Connection, Sheet>)
      requires i <= |events|
    {
      && lives.Keys <= sheets.Keys
      && (forall c :: c in lives ==> LifeOk(events, i, open, sheets[c], c, lives[c]))
      && (forall fd :: fd in open ==> open[fd] in lives && lives[open[fd]].fd == fd && lives[open[fd]].to == None)
      && (forall a: nat :: a < i && events[a].Accepted? ==> Registered(lives, events[a].fd, a))
    }

    /** Lives are only begun and ended. */
    static ghost predicate LivesGoOn(lives: map<Connection, Life>, lives': map<Connection, Life>) {
      forall c :: c in lives ==> c in lives' && lives'[c].(to := None) == lives[c].(to := None)
    }

    static lemma StillRegistered(lives: map<Connection, Life>, lives': map<Connection, Life>, fd: int, a: nat, i: nat)
      requires Registered(lives, fd, a) && a < i
      requires forall c :: c in lives ==>
                 c in lives' && (lives'[c] == lives[c] || lives'[c] == lives[c].(to := Some(i)))
      ensures Registered(lives', fd, a)
    {
      var c :| c in lives && lives[c].fd == fd && lives[c].from <= a + 1
               && (lives[c].to == None || lives[c].to.value > a);
      assert c in lives';
    }

    /** An event that delivers nothing to a connection leaves its life as it is. */
    static lemma LifeStays(events: seq<Event>, i: nat, open: map<int, Connection>, open': map<int, Connection>,
                           sheet: Sheet, c: Connection, life: Life)
      requires i < |events| && LifeOk(events, i, open, sheet, c, life)
      requires life.to == None ==>
                 life.fd in open' && open'[life.fd] == c && OneRead(events[i], life.fd) == []
      ensures LifeOk(events, i + 1, open', sheet, c, life)
    {
      hide ReadsOf, OneRead;
      if life.to == None { ReadsNext(events, life.from, i, life.fd); }
    }

    static lemma NoReads(events: seq<Event>, i: nat)
      requires i < |events|
      ensures events[i].Accepted? ==> forall fd :: OneRead(events[i], fd) == []
      ensures events[i].Ready? ==> forall fd :: fd != events[i].fd ==> OneRead(events[i], fd) == []
    {
    }

    /** An event upon which nothing happens. */
    static lemma LivesStay(events: seq<Event>, i: nat, lives: map<Connection, Life>,
                           open: map<int, Connection>, sheets: map<Connection, Sheet>)
      requires i < |events| && LivesOk(events, i, lives, open, sheets)
      requires if events[i].Accepted? then events[i].fd in open else events[i].fd !in open
      ensures LivesOk(events, i + 1, lives, open, sheets)
    {
      hide LifeOk, Registered, OneRead;
      NoReads(events, i);
      forall c | c in lives ensures LifeOk(events, i + 1, open, sheets[c], c, lives[c]) {
        LifeFacts(events, i, open, sheets[c], c, lives[c]);
        LifeStays(events, i, open, open, sheets[c], c, lives[c]);
      }
      if events[i].Accepted? { RegisteredNow(events, i, lives, open, sheets); }
    }

    static lemma LifeFacts(events: seq<Event>, i: nat, open: map<int, Connection>, sheet: Sheet,
                           c: Connection, life: Life)
      requires i <= |events| && LifeOk(events, i, open, sheet, c, life)
      ensures life.from <= i && (life.to == None ==> life.fd in open && open[life.fd] == c)
    {
      hide ReadsOf;
    }

    static lemma RegisteredNow(events: seq<Event>, i: nat, lives: map<Connection, Life>,
                               open: map<int, Connection>, sheets: map<Connection, Sheet>)
      requires i < |events| && LivesOk(events, i, lives, open, sheets) && events[i].Accepted? && events[i].fd in open
      ensures Registered(lives, events[i].fd, i)
    {
      hide LifeOk;
      var c := open[events[i].fd];
      LifeFacts(events, i, open, sheets[c], c, lives[c]);
    }

    /** A client is accepted. */
    static lemma LivesBegin(events: seq<Event>, i: nat, lives: map<Connection, Life>, open: map<int, Connection>,
                            sheets: map<Connection, Sheet>, sheets': map<Connection, Sheet>, c: Connection)
      requires i < |events| && LivesOk(events, i, lives, open, sheets)
      requires events[i].Accepted? && events[i].fd !in open && c !in sheets && c in sheets'
      requires sheets' == sheets[c := sheets'[c]] && sheets'[c].chunks == []
      ensures LivesOk(events, i + 1, lives[c := Life(events[i].fd, i + 1, None, [])], open[events[i].fd := c], sheets')
    {
      hide LifeOk, Registered, OneRead;
      var fd := events[i].fd;
      var life, open' := Life(fd, i + 1, None, []), open[fd := c];
      var lives' := lives[c := life];
      NoReads(events, i);
      assert LifeOk(events, i + 1, open', sheets'[c], c, life) by { NewLife(events, i, open', sheets'[c], c); }
      forall d | d in lives ensures LifeOk(events, i + 1, open', sheets'[d], d, lives[d]) {
        LifeFacts(events, i, open, sheets[d], d, lives[d]);
        LifeStays(events, i, open, open', sheets[d], d, lives[d]);
      }
      forall a: nat | a < i && events[a].Accepted? ensures Registered(lives', events[a].fd, a) {
        StillRegistered(lives, lives', events[a].fd, a, i);
      }
      assert Registered(lives', fd, i) by { assert lives'[c] == life; RegisteredAs(lives', c, i); }
    }

    static lemma RegisteredAs(lives: map<Connection, Life>, c: Connection, i: nat)
      requires c in lives && lives[c].from <= i + 1 && lives[c].to == None
      ensures Registered(lives, lives[c].fd, i)
    {
    }

    static lemma NewLife(events: seq<Event>, i: nat, open: map<int, Connection>, sheet: Sheet, c: Connection)
      requires i < |events| && events[i].Accepted? && events[i].fd in open && open[events[i].fd] == c
               && sheet.chunks == []
      ensures LifeOk(events, i + 1, open, sheet, c, Life(events[i].fd, i + 1, None, []))
    {
      hide ReadsOf;
      ReadsNone(events, i + 1, events[i].fd);
    }

    /** The connection the event is for has read what it delivers, or is closed having read at most that. */
    static ghost predicate ReadsEvent(e: Event, sheet: Sheet, sheet': Sheet, stays: bool) {
      exists part :: part <= OneRead(e, e.fd) && sheet'.chunks == sheet.chunks + part
                     && (if stays then part == OneRead(e, e.fd) else sheet'.ending.Some?)
    }

    static lemma LifeTurns(events: seq<Event>, i: nat, open: map<int, Connection>, open': map<int, Connection>,
                           sheet: Sheet, sheet': Sheet, c: Connection, life: Life)
      requires i < |events| && LifeOk(events, i, open, sheet, c, life) && life.to == None && life.fd == events[i].fd
      requires ReadsEvent(events[i], sheet, sheet', life.fd in open') && (life.fd in open' ==> open'[life.fd] == c)
      ensures LifeOk(events, i + 1, open', sheet', c, if life.fd in open' then life else life.(to := Some(i)))
    {
      hide ReadsOf, OneRead;
      ReadsNext(events, life.from, i, life.fd);
      var part :| part <= OneRead(events[i], life.fd) && sheet'.chunks == sheet.chunks + part
                  && (if life.fd in open' then part == OneRead(events[i], life.fd) else sheet'.ending.Some?);
      assert sheet'.chunks == life.before + ReadsOf(events[life.from..i], life.fd) + part;
    }

    /** An event for an open connection. */
    static lemma LivesTurn(events: seq<Event>, i: nat, lives: map<Connection, Life>, open: map<int, Connection>,
                           open': map<int, Connection>, sheets: map<Connection, Sheet>, sheets': map<Connection, Sheet>)
      requires i < |events| && LivesOk(events, i, lives, open, sheets) && events[i].Ready? && events[i].fd in open
      requires open' == open || open' == open - {events[i].fd}
      requires var c := open[events[i].fd];
               && c in sheets && c in sheets' && sheets' == sheets[c := sheets'[c]]
               && ReadsEvent(events[i], sheets[c], sheets'[c], events[i].fd in open')
      ensures var c := open[events[i].fd];
              c in lives
              && LivesOk(events, i + 1, if events[i].fd in open' then lives else lives[c := lives[c].(to := Some(i))],
                         open', sheets')
    {
      hide LifeOk, Registered, OneRead, ReadsEvent;
      var fd := events[i].fd;
      var c := open[fd];
      var lives' := if fd in open' then lives else lives[c := lives[c].(to := Some(i))];
      NoReads(events, i);
      forall d | d in lives ensures LifeOk(events, i + 1, open', sheets'[d], d, lives'[d]) {
        LifeFacts(events, i, open, sheets[d], d, lives[d]);
        if d == c {
          LifeTurns(events, i, open, open', sheets[c], sheets'[c], c, lives[c]);
        } else {
          LifeStays(events, i, open, open', sheets[d], d, lives[d]);
        }
      }
      forall a: nat | a < i + 1 && events[a].Accepted? ensures Registered(lives', events[a].fd, a) {
        StillRegistered(lives, lives', events[a].fd, a, i);
      }
    }

    method TakeClient(events: seq<Event>, i: nat, ghost lives: map<Connection, Life>, fd: int)
      returns (ghost lives': map<Connection, Life>)
      requires Valid() && i < |events| && events[i] == Accepted(fd) && LivesOk(events, i, lives, connections, Sheets())
      modifies this`all, this`connections
      ensures Valid() && calls == old(calls) && old(all) <= all
      ensures forall c :: c in all && c !in old(all) ==> fresh(c) && fresh(c.codec)
      ensures LivesOk(events, i + 1, lives', connections, Sheets()) && LivesGoOn(lives, lives')
      ensures lives'.Keys == lives.Keys + (all - old(all))
      ensures forall c :: c in old(all) ==> c.Seen() == old(c.Seen())
    {
      hide Valid, LivesOk;
      lives' := lives;
      ghost var open, sheets := connections, Sheets();
      if fd in connections {
        LivesStay(events, i, lives, open, sheets);
        return;
      }
      assert lives.Keys <= all by { LivesIn(events, i, lives, open, sheets); }
      AcceptConnection(fd);
      ghost var c := connections[fd];
      lives' := lives[c := Life(fd, i + 1, None, [])];
      assert Sheets() == sheets[c := Sheets()[c]];
      LivesBegin(events, i, lives, open, sheets, Sheets(), c);
    }

    static lemma LivesIn(events: seq<Event>, i: nat, lives: map<Connection, Life>,
                         open: map<int, Connection>, sheets: map<Connection, Sheet>)
      requires i <= |events| && LivesOk(events, i, lives, open, sheets)
      ensures lives.Keys <= sheets.Keys
    {
      hide LifeOk, Registered;
    }

    twostate lemma SheetsBut(c: Connection)
      requires OthersSame(c) && c in all
      ensures Sheets() == old(Sheets())[c := c.Seen()]
    {
      hide Connection.Seen;
    }

    twostate lemma SheetsSame()
      requires OthersSame(null)
      ensures Sheets() == old(Sheets())
    {
      hide Connection.Seen;
    }

    method TakeEvent(events: seq<Event>, i: nat, ghost lives: map<Connection, Life>, fd: int)
      returns (ghost lives': map<Connection, Life>)
      requires Valid() && i < |events| && events[i].Ready? && events[i].fd == fd && EventOk(events[i])
      requires LivesOk(events, i, lives, connections, Sheets())
      modifies this`calls, this`connections, all, Codecs()
      modifies store, store.index, store.index.head, store.index.live, store.log
      ensures Valid() && forall n :: n in store.index.live ==> n in old(store.index.live) || fresh(n)
      ensures old(calls) <= calls && LivesOk(events, i + 1, lives', connections, Sheets()) && LivesGoOn(lives, lives')
      ensures lives'.Keys == lives.Keys
      ensures forall c :: c in all && c !in lives ==> c.Seen() == old(c.Seen())
    {
      hide Valid, LivesOk, Handled, Sheets, LivesGoOn;
      var e := events[i];
      ghost var used, taken, after := HandleConnectionEvent(fd, e.flags, e.incoming, e.outgoing, e.later);
      lives' := EventLives(events, i, lives, used, taken, after);
    }

    /** What an event does to the lives. */
    twostate lemma EventLives(new events: seq<Event>, new i: nat, lives: map<Connection, Life>,
                              new used: nat, new taken: nat, new after: nat)
      returns (lives': map<Connection, Life>)
      requires i < |events| && events[i].Ready? && old(LivesOk(events, i, lives, connections, Sheets()))
      requires connections == old(connections) || connections == old(connections) - {events[i].fd}
      requires events[i].fd !in old(connections) ==> connections == old(connections) && OthersSame(null)
      requires events[i].fd in old(connections) ==> OthersSame(old(connections)[events[i].fd])
      requires var e := events[i];
               e.fd in old(connections) && Broken(e.flags) ==>
                 e.fd !in connections && TornDown(old(connections)[e.fd])
      requires var e := events[i];
               e.fd in old(connections) && !Broken(e.flags) ==>
                 Handled(e.fd, old(connections)[e.fd], e.flags, e.incoming, e.outgoing, e.later, used, taken, after)
      ensures LivesOk(events, i + 1, lives', connections, Sheets()) && LivesGoOn(lives, lives')
      ensures lives'.Keys == lives.Keys
      ensures forall c :: c in all && c !in lives ==> c.Seen() == old(c.Seen())
    {
      hide LivesOk, Handled, ReadsEvent;
      var e := events[i];
      var open, sheets := old(connections), old(Sheets());
      assert sheets.Keys == all;
      hide Sheets;
      lives' := lives;
      if e.fd !in open {
        SheetsSame();
        LivesStay(events, i, lives, open, sheets);
      } else {
        OpenIn(events, i, lives, open, sheets, e.fd);
        var c := open[e.fd];
        SheetsBut(c);
        if Broken(e.flags) { BrokenReads(e, c); } else { HandledReads(e, c, used, taken, after); }
        LivesTurn(events, i, lives, open, connections, sheets, Sheets());
        if e.fd !in connections { lives' := lives[c := lives[c].(to := Some(i))]; }
      }
    }

    static lemma OpenIn(events: seq<Event>, i: nat, lives: map<Connection, Life>,
                        open: map<int, Connection>, sheets: map<Connection, Sheet>, fd: int)
      requires i <= |events| && LivesOk(events, i, lives, open, sheets) && fd in open
      ensures open[fd] in lives && open[fd] in sheets
    {
      hide LifeOk, Registered;
    }

    twostate lemma BrokenReads(new e: Event, c: Connection)
      requires e.Ready? && e.fd !in connections && TornDown(c)
      ensures ReadsEvent(e, old(c.Seen()), c.Seen(), e.fd in connections)
    {
      assert [] <= OneRead(e, e.fd) && c.chunks == old(c.chunks) + [];
    }

    twostate lemma HandledReads(new e: Event, c: Connection, new used: nat, new taken: nat, new after: nat)
      requires e.Ready? && !Broken(e.flags)
      requires Handled(e.fd, c, e.flags, e.incoming, e.outgoing, e.later, used, taken, after)
      ensures ReadsEvent(e, old(c.Seen()), c.Seen(), e.fd in connections)
    {
      hide Delivered, Flowed, SentUpTo;
      ghost var part := Delivered(e.incoming[..used]);
      ReadablePrefix(e.incoming, used);
      DeliveredPrefix(e.incoming[..used], Readable(e.incoming));
      if EPOLLIN !in e.flags { NothingDelivered(); }
      assert part <= OneRead(e, e.fd) && c.chunks == old(c.chunks) + part;
    }

    /** One turn of the event loop. */
    method HandleEvent(events: seq<Event>, i: nat, ghost lives: map<Connection, Life>)
      returns (ghost lives': map<Connection, Life>)
      requires Valid() && i < |events| && EventOk(events[i]) && LivesOk(events, i, lives, connections, Sheets())
      modifies this`calls, this`connections, this`all, all, Codecs()
      modifies store, store.index, store.index.head, store.index.live, store.log
      ensures Valid() && forall n :: n in store.index.live ==> n in old(store.index.live) || fresh(n)
      ensures old(calls) <= calls && old(all) <= all
      ensures forall c :: c in all && c !in old(all) ==> fresh(c) && fresh(c.codec)
      ensures LivesOk(events, i + 1, lives', connections, Sheets()) && LivesGoOn(lives, lives')
      ensures lives'.Keys == lives.Keys + (all - old(all))
      ensures Untouched(old(Sheets()), Sheets(), lives)
    {
      hide Valid, LivesOk, LivesGoOn;
      match events[i] {
        case Accepted(fd) =>
          lives' := TakeClient(events, i, lives, fd);
        case Ready(fd, flags, incoming, outgoing, later) =>
          lives' := TakeEvent(events, i, lives, fd);
      }
    }

    static function Served(open: map<int, Connection>): set<Connection> { set fd | fd in open :: open[fd] }

    /** Under which descriptor a connection is served. */
    static ghost function Descriptor(open: map<int, Connection>, c: Connection): (fd: int)
      requires c in Served(open)
      ensures fd in open && open[fd] == c
    {
      var fd :| fd in open && open[fd] == c;
      fd
    }

    /** The lives of the connections open at first. */
    static ghost function FirstLives(open: map<int, Connection>, sheets: map<Connection, Sheet>): map<Connection, Life>
      requires Served(open) <= sheets.Keys
    {
      map c | c in Served(open) :: Life(Descriptor(open, c), 0, None, sheets[c].chunks)
    }

    static lemma LivesFirst(events: seq<Event>, open: map<int, Connection>, sheets: map<Connection, Sheet>)
      requires Served(open) <= sheets.Keys
      requires forall fd, other :: fd in open && other in open && fd != other ==> open[fd] != open[other]
      ensures LivesOk(events, 0, FirstLives(open, sheets), open, sheets)
      ensures forall fd :: fd in open ==>
                open[fd] in FirstLives(open, sheets)
                && FirstLives(open, sheets)[open[fd]] == Life(fd, 0, None, sheets[open[fd]].chunks)
    {
      var lives := FirstLives(open, sheets);
      forall c | c in lives ensures LifeOk(events, 0, open, sheets[c], c, lives[c]) {
        ReadsNone(events, 0, lives[c].fd);
      }
    }

    lemma FirstOk(events: seq<Event>)
      requires Valid()
      ensures Served(connections) <= Sheets().Keys
      ensures LivesOk(events, 0, FirstLives(connections, Sheets()), connections, Sheets())
      ensures FirstLives(connections, Sheets()).Keys == Served(connections)
      ensures forall fd :: fd in connections ==>
                connections[fd] in FirstLives(connections, Sheets())
                && FirstLives(connections, Sheets())[connections[fd]] == Life(fd, 0, None, connections[fd].chunks)
    {
      hide StoreOk, OthersOk, LivesOk;
      LivesFirst(events, connections, Sheets());
    }

    /**
     * The event loop, for any clients, any chunking of what they send and any partial writes.
     * Every accepted descriptor is registered, and every connection reads exactly what its
     * events deliver, in order, until it is closed.
     */
    method Run(events: seq<Event>) returns (ghost lives: map<Connection, Life>)
      requires Valid() && forall e :: e in events ==> EventOk(e)
      modifies this`calls, this`connections, this`all, all, Codecs()
      modifies store, store.index, store.index.head, store.index.live, store.log
      ensures Valid() && old(calls) <= calls && old(all) <= all
      ensures LivesOk(events, |events|, lives, connections, Sheets())
      ensures lives.Keys == Served(old(connections)) + (all - old(all))
      ensures forall fd :: fd in old(connections) ==>
                var c := old(connections)[fd]; c in lives && lives[c].(to := None) == Life(fd, 0, None, old(c.chunks))
      ensures Untouched(old(Sheets()), Sheets(), lives)
    {
      FirstOk(events);
      lives := FirstLives(connections, Sheets());
      ghost var first := lives;
      assert LivesFrom(first, lives, {}) && Untouched(Sheets(), Sheets(), lives);
      hide Valid, LivesOk, Sheets, FirstLives, Served, LivesFrom, LivesGoOn, Untouched;
      for i := 0 to |events|
        invariant Valid() && old(calls) <= calls && old(all) <= all
        invariant forall n :: n in store.index.live ==> n in old(store.index.live) || fresh(n)
        invariant forall c :: c in all && c !in old(all) ==> fresh(c) && fresh(c.codec)
        invariant LivesOk(events, i, lives, connections, Sheets())
        invariant LivesFrom(first, lives, all - old(all)) && Untouched(old(Sheets()), Sheets(), lives)
      {
        assert EventOk(events[i]);
        ghost var before, served, sheets := lives, all, Sheets();
        lives := HandleEvent(events, i, lives);
        LivesFromNext(first, before, lives, old(all), served, all);
        UntouchedNext(old(Sheets()), sheets, Sheets(), before, lives);
      }
      assert lives.Keys == first.Keys + (all - old(all)) && LivesGoOn(first, lives) by {
        LivesFromMeans(first, lives, all - old(all));
      }
      LivesGoOnMeans(first, lives);
    }

    /** Lives have gone on from the first ones, and begun for the new connections. */
    static ghost predicate LivesFrom(first: map<Connection, Life>, lives: map<Connection, Life>,
                                     newer: set<Connection>) {
      LivesGoOn(first, lives) && lives.Keys == first.Keys + newer
    }

    static lemma LivesFromMeans(first: map<Connection, Life>, lives: map<Connection, Life>, newer: set<Connection>)
      requires LivesFrom(first, lives, newer)
      ensures LivesGoOn(first, lives) && lives.Keys == first.Keys + newer
    {
    }

    static lemma LivesGoOnMeans(lives: map<Connection, Life>, lives': map<Connection, Life>)
      requires LivesGoOn(lives, lives')
      ensures forall c :: c in lives ==> c in lives' && lives'[c].(to := None) == lives[c].(to := None)
    {
    }

    static lemma LivesFromNext(first: map<Connection, Life>, lives: map<Connection, Life>,
                               lives': map<Connection, Life>,
                               all0: set<Connection>, all1: set<Connection>, all2: set<Connection>)
      requires LivesFrom(first, lives, all1 - all0) && LivesGoOn(lives, lives')
      requires lives'.Keys == lives.Keys + (all2 - all1) && all0 <= all1 <= all2
      ensures LivesFrom(first, lives', all2 - all0)
    {
    }

    /** The connections without a life, those closed before, stay as they are. */
    static ghost predicate Untouched(sheets: map<Connection, Sheet>, sheets': map<Connection, Sheet>,
                                     lives: map<Connection, Life>) {
      forall c :: c in sheets && c !in lives ==> c in sheets' && sheets'[c] == sheets[c]
    }

    static lemma UntouchedNext(sheets0: map<Connection, Sheet>, sheets1: map<Connection, Sheet>,
                               sheets2: map<Connection, Sheet>,
                               lives: map<Connection, Life>, lives': map<Connection, Life>)
      requires Untouched(sheets0, sheets1, lives) && Untouched(sheets1, sheets2, lives) && lives.Keys <= lives'.Keys
      ensures Untouched(sheets0, sheets2, lives')
    {
    }

    // ----------------------------------------------------------------- results

    /**
     * End to end, for every connection ever accepted: what was executed on it is what
     * decoding all its bytes at once yields, up to the requests lost with the chunk on
     * which the decoder threw, if it did; each answer is the one the map at that moment
     * calls for; and the bytes sent are a prefix of the answers in order. The condition
     * is that no length wraps around 2^64.
     */
    lemma EndToEnd(c: Connection)
      requires Valid() && c in all && |Concat(c.chunks)| <= MAX_STRING && !AnyWraps(Concat(c.chunks))
      ensures AllRequests(Concat(c.chunks)) == RequestsOf(Own(c)) + Lost(c.Seen())
      ensures c.ending != Some(Refused) ==> Lost(c.Seen()) == []
      ensures c.sent <= Output(Own(c)) && Honest(initial, calls)
      ensures c.ending == Some(Finished) ==> c.sent == Output(Own(c)) && AnyQuit(RequestsOf(Own(c)))
    {
      hide AnyWraps, AllRequests, RequestsOf, Output, Feed, CallsOf, Separate, StoreOk, Serving, Extract;
      ExecutedInOrder(Own(c), c.Seen());
      assert Honest(initial, calls) by { AnswersHonest(); }
    }

    lemma AnswersHonest()
      requires Valid()
      ensures Honest(initial, calls) && store.Valid() && store.Map() == MapOfCalls(initial, calls)
    {
    }

    /** An open connection has sent everything but its queue, waits for writability exactly
        while the queue is not empty, and is about to be closed only with bytes left to send. */
    lemma NoLostWakeup(fd: int)
      requires Valid() && fd in connections
      ensures var c := connections[fd];
              && c.sent + c.writeBuffer == Output(Own(c))
              && (EPOLLOUT in c.interestEvents <==> c.writeBuffer != [])
              && (c.closeAfterWrite ==> c.writeBuffer != [])
              && (c.closeAfterWrite <==> AnyQuit(RequestsOf(Own(c))))
    {
      hide StoreOk, Past, CallsOf, RequestsOf, Output, AnyQuit, Feed;
    }

    /** Every answer is durable: between two events a restart would bring back the map
        after all calls answered so far, on a store that was healthy at first or that a
        completed checkpoint has made so, as long as no snapshot is put in place short. */
    lemma AnswersSurvive()
      requires Valid() && HealthAfter(healthy, calls) && AllFits()
      ensures Recover(store.Files()) == Store(MapOfCalls(initial, calls))
    {
      hide Separate, OthersOk, Recover;
    }
  }
}
