/**
 * What lock-free readers cannot miss.
 *
 * A node that is live at every moment of a call is found by it: the pointer of a
 * node the reader has met, also of one unlinked and frozen meanwhile, never leads
 * past such a node. So Snapshot and Scan answer every key that is in the map
 * throughout the call, and a Get can miss such a key only in one way.
 */
module SkipListReaders {
  import opened Wrappers
  import opened Bytes
  import opened SkipListMachine
  import opened SkipListHeap
  import opened SkipListThreads
  import opened SkipListHistory
  import opened SkipListSafety
  import opened SkipListCalls
  import opened SkipListTheorems

  /** The node was live at every moment from `began` on. */
  ghost predicate StaysLive(past: seq<Heap>, began: nat, m: Addr) {
    began < |past| && forall i :: began <= i < |past| ==> Live(past[i], m)
  }

  lemma StaysNow(past: seq<Heap>, began: nat, m: Addr)
    requires StaysLive(past, began, m)
    ensures Live(past[|past| - 1], m)
  {
  }

  lemma StayedBefore(past: seq<Heap>, began: nat, h': Heap, m: Addr)
    requires StaysLive(past + [h'], began, m) && began < |past|
    ensures StaysLive(past, began, m) && Live(h', m)
  {
    var past' := past + [h'];
    assert past'[|past|] == h';
    forall i | began <= i < |past| ensures Live(past[i], m) {
      assert past'[i] == past[i];
    }
  }

  // --------------------------------------------------------- steady knowledge

  /** A node met during the call with the key of a node that stays live is that node. */
  ghost predicate SeenDistinct(c: Config, h: Heap, past: seq<Heap>, began: nat) {
    forall n, m ::
      (SeenIn(past, began, n) && n in h && n != c.head && StaysLive(past, began, m) && m in h
          && h[n].key == h[m].key) ==> n == m
  }

  /** The next pointer of `n` does not lead past `m`. */
  ghost predicate NotPast(c: Config, h: Heap, n: Addr, m: Addr) {
    n in h && m in h && Before(c, h, n, h[m].key) && HasLevel(h, n, 0) ==>
      h[n].forward[0] != NULL && h[n].forward[0] in h && !c.less(h[m].key, h[h[n].forward[0]].key)
  }

  /** The pointer of a node met during the call and unlinked since leads past none that stays live. */
  ghost predicate NonePassed(c: Config, h: Heap, past: seq<Heap>, began: nat) {
    forall n, m :: SeenIn(past, began, n) && n in h && h[n].linked == 0 && StaysLive(past, began, m) ==>
        NotPast(c, h, n, m)
  }

  ghost predicate Steady(c: Config, h: Heap, past: seq<Heap>, began: nat) {
    && began < |past| && past[|past| - 1] == h
    && SeenDistinct(c, h, past, began) && NonePassed(c, h, past, began)
  }

  /** A live node is listed at the bottom and is not the head. */
  lemma LiveListed(c: Config, h: Heap, m: Addr)
    requires HeapInv(c, h) && Live(h, m)
    ensures InLevel(h, m, 0) && m != c.head
  {
    hide HeapInv;
    HeadAt(c, h);
    NodeAt(c, h, m);
  }

  lemma ListedNotPast(c: Config, h: Heap, n: Addr, m: Addr)
    requires HeapInv(c, h) && InLevel(h, n, 0) && Live(h, m)
    ensures NotPast(c, h, n, m)
  {
    hide HeapInv;
    LiveListed(c, h, m);
    NextAt(c, h, n, m, 0);
  }

  lemma SteadyBegins(c: Config, h: Heap, past: seq<Heap>)
    requires HeapInv(c, h) && |past| > 0 && past[|past| - 1] == h
    ensures Steady(c, h, past, |past| - 1)
  {
    hide HeapInv, NotPast;
    var began := |past| - 1;
    forall n, m | SeenIn(past, began, n) && n != c.head && StaysLive(past, began, m) && n in h && m in h
        && h[n].key == h[m].key
      ensures n == m
    {
      StaysNow(past, began, m);
      LiveListed(c, h, m);
      KeysAt(c, h, n, m);
    }
    assert forall n :: SeenIn(past, began, n) ==> InLevel(h, n, 0);
  }

  lemma SteadyKept(c: Config, h: Heap, h': Heap, past: seq<Heap>, began: nat, key: Bytes)
    requires ValidConfig(c) && HeapInv(c, h) && HeapInv(c, h') && Evolves(h, h')
    requires Hindsight(c, h, past, began, key) && Steady(c, h, past, began)
    ensures Steady(c, h', past + [h'], began)
  {
    hide HeapInv, SeenDistinct, NonePassed, SeenClosed, GapsAbsent, SeenReached, Evolves;
    assert SeenDistinct(c, h', past + [h'], began) by {
      DistinctKept(c, h, h', past, began, key);
    }
    assert NonePassed(c, h', past + [h'], began) by {
      PassedKept(c, h, h', past, began, key);
    }
  }

  lemma DistinctKept(c: Config, h: Heap, h': Heap, past: seq<Heap>, began: nat, key: Bytes)
    requires HeapInv(c, h) && HeapInv(c, h') && Evolves(h, h')
    requires Hindsight(c, h, past, began, key) && Steady(c, h, past, began)
    ensures SeenDistinct(c, h', past + [h'], began)
  {
    hide HeapInv, NonePassed, SeenClosed, GapsAbsent, SeenIn, StaysLive;
    var past' := past + [h'];
    forall n, m | SeenIn(past', began, n) && n in h' && n != c.head && StaysLive(past', began, m) && m in h'
        && h'[n].key == h'[m].key
      ensures n == m
    {
      StayedBefore(past, began, h', m);
      SeenLater(past, began, h', n);
      if SeenIn(past, began, n) {
        assert Reached(h, n, 0);
        StaysNow(past, began, m);
      } else {
        LiveListed(c, h', m);
        KeysAt(c, h', n, m);
      }
    }
  }

  lemma PassedKept(c: Config, h: Heap, h': Heap, past: seq<Heap>, began: nat, key: Bytes)
    requires HeapInv(c, h) && HeapInv(c, h') && Evolves(h, h')
    requires Hindsight(c, h, past, began, key) && Steady(c, h, past, began)
    ensures NonePassed(c, h', past + [h'], began)
  {
    hide HeapInv, SeenDistinct, SeenClosed, GapsAbsent, SeenIn, StaysLive, NotPast;
    var past' := past + [h'];
    forall n, m | SeenIn(past', began, n) && n in h' && h'[n].linked == 0 && StaysLive(past', began, m)
      ensures NotPast(c, h', n, m)
    {
      StayedBefore(past, began, h', m);
      StaysNow(past, began, m);
      SeenLater(past, began, h', n);
      assert Reached(h, n, 0) && h[n].marked;
      if InLevel(h, n, 0) { ListedNotPast(c, h, n, m); }
      FrozenNotPast(c, h, h', n, m);
    }
  }

  lemma FrozenNotPast(c: Config, h: Heap, h': Heap, n: Addr, m: Addr)
    requires Evolves(h, h') && n in h && h[n].marked && m in h && NotPast(c, h, n, m)
    ensures NotPast(c, h', n, m)
  {
  }

  /** From any node met during the call, linked or not, the next pointer leads past none that stays live. */
  lemma NeverPast(c: Config, h: Heap, past: seq<Heap>, began: nat, n: Addr, m: Addr)
    requires HeapInv(c, h) && Steady(c, h, past, began) && SeenIn(past, began, n) && StaysLive(past, began, m)
    ensures NotPast(c, h, n, m)
  {
    hide HeapInv, SeenDistinct, SeenIn, NotPast;
    StaysNow(past, began, m);
    if InLevel(h, n, 0) {
      ListedNotPast(c, h, n, m);
    } else if n in h {
      assert NotPast(c, h, n, m);
    } else {
      assert NotPast(c, h, n, m) by { Unallocated(c, h, n, m); }
    }
  }

  lemma Unallocated(c: Config, h: Heap, n: Addr, m: Addr)
    requires n !in h
    ensures NotPast(c, h, n, m)
  {
  }

  // ------------------------------------------------------ what a reader has done

  predicate Reader(call: Call) { call.Get? || call.Scan? || call.Snapshot? }

  /** The keys a Scan or Snapshot is asked for. */
  ghost predicate InScope(c: Config, call: Call, key: Bytes) {
    call.Snapshot? || (call.Scan? && !c.less(key, call.key) && !c.less(call.end, key))
  }

  ghost predicate Collected(result: seq<(Bytes, Bytes)>, key: Bytes) {
    exists i :: 0 <= i < |result| && result[i].0 == key
  }

  predicate AtPred(th: Thread) { th.pc == WalkLoad || (th.pc == Release && th.cont == WalkLoad) }

  predicate AtCur(th: Thread) {
    th.pc in {WalkMarked, WalkLinked, WalkMarkedAgain, WalkLinkedAgain, WalkRead, Acquire}
  }

  predicate AtEnd(th: Thread) { th.pc == Done || (th.pc == Release && th.cont == Done) }

  /** Everything in scope that stays live, up to and including `pred`, has been collected. */
  ghost predicate PredDone(c: Config, h: Heap, past: seq<Heap>, th: Thread) {
    && SeenIn(past, th.began, th.pred)
    && (th.call.Get? ==> Before(c, h, th.pred, th.call.key))
    && forall m ::
         StaysLive(past, th.began, m) && m in h && InScope(c, th.call, h[m].key) && !Before(c, h, th.pred, h[m].key)
         ==> Collected(th.result, h[m].key)
  }

  /** Everything in scope that stays live, below `cur`, has been collected. */
  ghost predicate CurDone(c: Config, h: Heap, past: seq<Heap>, th: Thread) {
    && SeenIn(past, th.began, th.cur) && th.cur in h && th.cur != c.head
    && (th.call.Get? ==> h[th.cur].key == th.call.key)
    && forall m ::
         StaysLive(past, th.began, m) && m in h && InScope(c, th.call, h[m].key) && c.less(h[m].key, h[th.cur].key)
         ==> Collected(th.result, h[m].key)
  }

  /** The node that a Get loads after its search lies below its key. */
  ghost predicate Overtaken(c: Config, h: Heap, th: Thread) {
    th.cur in h && c.less(h[th.cur].key, th.call.key)
  }

  ghost predicate EndDone(c: Config, h: Heap, past: seq<Heap>, th: Thread) {
    forall m :: StaysLive(past, th.began, m) && m in h ==>
      && (InScope(c, th.call, h[m].key) ==> Collected(th.result, h[m].key))
      && (th.call.Get? && !th.ret && h[m].key == th.call.key ==> Overtaken(c, h, th))
  }

  ghost predicate CallFull(c: Config, h: Heap, past: seq<Heap>, th: Thread) {
    th.pc != Idle && Reader(th.call) ==>
      && Steady(c, h, past, th.began)
      && (th.pc in {Descend, Decide} ==> SeenIn(past, th.began, th.pred))
      && (AtPred(th) ==> PredDone(c, h, past, th))
      && (AtCur(th) ==> CurDone(c, h, past, th))
      && (AtEnd(th) ==> EndDone(c, h, past, th))
  }

  // ---------------------------------------------------------- the heap moves on

  /** What a thread has done is not undone by the next heap. */
  lemma FullLater(c: Config, h: Heap, h': Heap, past: seq<Heap>, th: Thread)
    requires ValidConfig(c) && HeapInv(c, h) && HeapInv(c, h') && Evolves(h, h')
    requires th.pc != Idle && Reader(th.call) ==> Hindsight(c, h, past, th.began, th.call.key)
    requires CallFull(c, h, past, th)
    ensures CallFull(c, h', past + [h'], th)
  {
    hide HeapInv, Evolves, Steady, Hindsight, SeenIn, PredDone, CurDone, EndDone;
    if th.pc != Idle && Reader(th.call) {
      SteadyKept(c, h, h', past, th.began, th.call.key);
      SeenLater(past, th.began, h', th.pred);
      if AtPred(th) { PredLater(c, h, h', past, th); }
      if AtCur(th) { CurLater(c, h, h', past, th); }
      if AtEnd(th) { EndLater(c, h, h', past, th); }
    }
  }

  /** What stays live in the longer past has stayed live so far, under the same key. */
  lemma StayersLater(c: Config, h: Heap, h': Heap, past: seq<Heap>, began: nat)
    requires Steady(c, h, past, began) && Evolves(h, h')
    ensures forall m :: StaysLive(past + [h'], began, m) ==>
              StaysLive(past, began, m) && m in h && m in h' && h'[m].key == h[m].key
  {
    hide Steady, StaysLive;
    Begun(c, h, past, began);
    forall m | StaysLive(past + [h'], began, m) ensures StaysLive(past, began, m) && m in h {
      StayedBefore(past, began, h', m);
      StaysIn(c, h, past, began, m);
    }
  }

  lemma PredLater(c: Config, h: Heap, h': Heap, past: seq<Heap>, th: Thread)
    requires Evolves(h, h') && Hindsight(c, h, past, th.began, th.call.key) && Steady(c, h, past, th.began)
    requires PredDone(c, h, past, th)
    ensures PredDone(c, h', past + [h'], th)
  {
    hide Steady, Hindsight, SeenIn, StaysLive, InScope, Collected;
    StayersLater(c, h, h', past, th.began);
    SeenLater(past, th.began, h', th.pred);
    SeenIsIn(c, h, past, th.began, th.call.key, th.pred);
  }

  lemma CurLater(c: Config, h: Heap, h': Heap, past: seq<Heap>, th: Thread)
    requires Evolves(h, h') && Steady(c, h, past, th.began) && CurDone(c, h, past, th)
    ensures CurDone(c, h', past + [h'], th)
  {
    hide Steady, SeenIn, StaysLive, InScope, Collected;
    StayersLater(c, h, h', past, th.began);
    SeenLater(past, th.began, h', th.cur);
  }

  lemma EndLater(c: Config, h: Heap, h': Heap, past: seq<Heap>, th: Thread)
    requires Evolves(h, h') && Steady(c, h, past, th.began) && EndDone(c, h, past, th)
    ensures EndDone(c, h', past + [h'], th)
  {
    hide Steady, StaysLive, InScope, Collected;
    StayersLater(c, h, h', past, th.began);
  }

  lemma Begun(c: Config, h: Heap, past: seq<Heap>, began: nat)
    requires Steady(c, h, past, began)
    ensures began < |past| && past[|past| - 1] == h
  {
  }

  lemma StaysIn(c: Config, h: Heap, past: seq<Heap>, began: nat, m: Addr)
    requires Steady(c, h, past, began) && StaysLive(past, began, m)
    ensures m in h
  {
    hide SeenDistinct, NonePassed;
    StaysNow(past, began, m);
  }

  lemma SeenIsIn(c: Config, h: Heap, past: seq<Heap>, began: nat, key: Bytes, n: Addr)
    requires Hindsight(c, h, past, began, key) && SeenIn(past, began, n)
    ensures n in h
  {
    hide SeenIn, SeenClosed, GapsAbsent;
  }

  // ------------------------------------------------------- the steps of a reader

  /** A reader that does not move keeps what it has done. */
  lemma SameDone(c: Config, h: Heap, past: seq<Heap>, th: Thread, th': Thread)
    requires CallFull(c, h, past, th) && th.pc != Idle && th'.pc != Idle
    requires th'.call == th.call && th'.began == th.began && th'.pred == th.pred && th'.cur == th.cur
    requires th'.result == th.result && th'.ret == th.ret
    requires (AtPred(th') ==> AtPred(th)) && (AtCur(th') ==> AtCur(th)) && (AtEnd(th') ==> AtEnd(th))
    requires th'.pc in {Descend, Decide} ==> th.pc in {Descend, Decide}
    ensures CallFull(c, h, past, th')
  {
    hide Steady, SeenIn, StaysLive, InScope, Collected;
  }

  /** The reader loads the next node of the bottom level. */
  lemma LoadDone(c: Config, h: Heap, past: seq<Heap>, th: Thread, th': Thread)
    requires ValidConfig(c) && HeapInv(c, h) && Hindsight(c, h, past, th.began, th.call.key)
    requires CallFull(c, h, past, th) && Reader(th.call) && th.pc == WalkLoad
    requires HasLevel(h, th.pred, 0) && Reached(h, th.pred, 0)
    requires var cur := h[th.pred].forward[0];
             && (cur == NULL || cur in h)
             && var stop := cur == NULL || (th.call.Get? && !KeysEqual(c, h[cur].key, th.call.key))
                            || (th.call.Scan? && c.less(th.call.end, h[cur].key));
                th' == th.(pc := if stop then Done else WalkMarked, cur := cur)
    requires th'.cur != NULL ==> th'.cur != c.head
    ensures CallFull(c, h, past, th')
  {
    hide HeapInv, Steady, SeenIn, StaysLive, Collected, Hindsight;
    if th'.cur != NULL { Followed(c, h, past, th.began, th.call.key, th.pred, 0); }
    forall m | StaysLive(past, th.began, m) && m in h ensures NotPast(c, h, th.pred, m) {
      NeverPast(c, h, past, th.began, th.pred, m);
    }
  }

  /** A node that stays live is live when the reader looks at it. */
  lemma CurLive(c: Config, h: Heap, past: seq<Heap>, th: Thread, m: Addr)
    requires Steady(c, h, past, th.began) && SeenIn(past, th.began, th.cur) && th.cur in h && th.cur != c.head
    requires StaysLive(past, th.began, m) && m in h && h[m].key == h[th.cur].key
    ensures Live(h, th.cur)
  {
    hide NonePassed, SeenIn;
    StaysNow(past, th.began, m);
  }

  /** The reader passes over a node that is not live. */
  lemma SkipDone(c: Config, h: Heap, past: seq<Heap>, th: Thread, th': Thread)
    requires ValidConfig(c) && CallFull(c, h, past, th) && Reader(th.call) && AtCur(th) && !Live(h, th.cur)
    requires th' == Onward(th) || th' == ReleaseOnward(th)
    ensures CallFull(c, h, past, th')
  {
    hide Steady, SeenIn, StaysLive, Collected, Live;
    forall m | StaysLive(past, th.began, m) && m in h ensures h[m].key != h[th.cur].key {
      if h[m].key == h[th.cur].key { CurLive(c, h, past, th, m); }
    }
  }

  /** The reader collects the node. */
  lemma ReadDone(c: Config, h: Heap, past: seq<Heap>, th: Thread, th': Thread, value: Bytes)
    requires ValidConfig(c) && CallFull(c, h, past, th) && Reader(th.call) && AtCur(th) && th.cur in h
    requires th' == ReleaseOnward(th).(ret := true, result := th.result + [(h[th.cur].key, value)])
    ensures CallFull(c, h, past, th')
  {
    hide Steady, SeenIn, StaysLive, Collected;
    CollectedMore(th.result, (h[th.cur].key, value));
  }

  lemma CollectedMore(result: seq<(Bytes, Bytes)>, p: (Bytes, Bytes))
    ensures Collected(result + [p], p.0)
    ensures forall k :: Collected(result, k) ==> Collected(result + [p], k)
  {
    var more := result + [p];
    assert more[|result|] == p;
    forall k | Collected(result, k) ensures Collected(more, k) {
      var i :| 0 <= i < |result| && result[i].0 == k;
      assert more[i] == result[i];
    }
  }

  /** The search of a Scan or Get ends below the start of its scope. */
  lemma SearchDone(c: Config, h: Heap, past: seq<Heap>, th: Thread, th': Thread)
    requires ValidConfig(c) && CallFull(c, h, past, th) && (th.call.Get? || th.call.Scan?) && th.pc == Decide
    requires Before(c, h, th.pred, th.call.key) && th' == th.(pc := WalkLoad)
    ensures CallFull(c, h, past, th')
  {
    hide Steady, SeenIn, StaysLive, Collected;
  }

  /** A call begins; a Snapshot stands at the head, a Scan of an empty range ends at once. */
  lemma InvokeDone(c: Config, h: Heap, past: seq<Heap>, th': Thread)
    requires ValidConfig(c) && HeapInv(c, h) && th'.pc in {ReadLevel, WalkLoad, Done} && Reader(th'.call)
    requires Steady(c, h, past, th'.began) && (th'.pc == WalkLoad ==> th'.call.Snapshot? && th'.pred == c.head)
    requires th'.pc == Done ==> th'.call.Scan? && c.less(th'.call.end, th'.call.key)
    ensures CallFull(c, h, past, th')
  {
    hide HeapInv, StaysLive, Collected, SeenDistinct, NonePassed;
    HeadAt(c, h);
    SeenNow(past, th'.began, c.head);
  }

  // ---------------------------------------------------------------- all threads

  lemma FullInvoke(c: Config, s: State, t: Tid, ch: Choice, s': State)
    requires Core(c, s) && HeapInv(c, s'.heap) && Step(c, s, t, ch) == Some(s')
    requires t in s.threads && t in s'.threads && s'.past == s.past + [s'.heap] && s.threads[t].pc == Idle
    requires |s.past| > 0 && s.past[|s.past| - 1] == s.heap
    ensures CallFull(c, s'.heap, s'.past, s'.threads[t])
  {
    hide HeapInv, AgentsKnown, ThreadsOk, Steady, Hindsight;
    assert Invoke(c, s, t, s.threads[t], ch) == Some(s');
    hide Step;
    var began, key := |s.past| - 1, ch.call.key;
    HindsightBegins(c, s.heap, s.past, key);
    SteadyBegins(c, s.heap, s.past);
    SteadyKept(c, s.heap, s'.heap, s.past, began, key);
    if Reader(ch.call) { InvokeDone(c, s'.heap, s'.past, s'.threads[t]); }
  }

  /** The steps of the search. */
  lemma FullSearch(c: Config, s: State, t: Tid, ch: Choice, s': State)
    requires Core(c, s) && HeapInv(c, s'.heap) && Step(c, s, t, ch) == Some(s') && t in s.threads && t in s'.threads
    requires s.threads[t].pc in {ReadLevel, Descend, Decide} && CallPast(c, s', t)
    requires CallFull(c, s'.heap, s'.past, s.threads[t])
    ensures CallFull(c, s'.heap, s'.past, s'.threads[t])
  {
    hide HeapInv, AgentsKnown, Steady, SeenIn, Hindsight, PredDone, CurDone, EndDone, FindOk, LocksMatch, TransitMine,
        AnswerOk;
    var th, th' := s.threads[t], s'.threads[t];
    assert ThreadOk(c, s.heap, t, th);
    hide ThreadsOk, PcOk;
    if th.pc == ReadLevel {
      assert StartDescent(c, s, t, th) == Some(s');
      hide Step;
    } else if th.pc == Descend {
      assert DescendOnce(c, s, t, th) == Some(s');
      hide Step;
    } else {
      assert DecideNext(c, s, t, th, ch) == Some(s');
      hide Step;
      if Reader(th.call) {
        BelowKey(c, s.heap, t, th);
        SearchDone(c, s'.heap, s'.past, th, th');
      }
    }
  }

  lemma BelowKey(c: Config, h: Heap, t: Tid, th: Thread)
    requires PcOk(c, h, t, th) && th.pc == Decide
    ensures Before(c, h, th.pred, th.call.key) && !th.call.Snapshot?
  {
    hide Found, PhaseOk;
  }

  /** The steps along the bottom level. */
  lemma FullWalk(c: Config, s: State, t: Tid, ch: Choice, s': State)
    requires Core(c, s) && HeapInv(c, s'.heap) && Step(c, s, t, ch) == Some(s') && t in s.threads && t in s'.threads
    requires s.threads[t].pc in {WalkLoad, WalkMarked, WalkLinked} && Reader(s.threads[t].call)
    requires Hindsight(c, s'.heap, s'.past, s.threads[t].began, s.threads[t].call.key)
    requires CallFull(c, s'.heap, s'.past, s.threads[t])
    ensures CallFull(c, s'.heap, s'.past, s'.threads[t])
  {
    hide HeapInv, AgentsKnown, Hindsight, CallFull, LocksMatch, TransitMine, AnswerOk;
    var th, th' := s.threads[t], s'.threads[t];
    assert ThreadOk(c, s.heap, t, th);
    hide ThreadsOk;
    if th.pc == WalkLoad {
      assert StepWalkLoad(c, s, t, th) == Some(s');
      hide Step;
      EdgeAt(c, s.heap, th.pred, 0);
      LoadDone(c, s'.heap, s'.past, th, th');
    } else if th.pc == WalkMarked {
      assert StepWalkMarked(s, t, th) == Some(s');
      hide Step;
      if s.heap[th.cur].marked {
        SkipDone(c, s'.heap, s'.past, th, th');
      } else {
        SameDone(c, s'.heap, s'.past, th, th');
      }
    } else {
      assert StepWalkLinked(s, t, th) == Some(s');
      hide Step;
      if s.heap[th.cur].fullyLinked {
        SameDone(c, s'.heap, s'.past, th, th');
      } else {
        SkipDone(c, s'.heap, s'.past, th, th');
      }
    }
  }

  /** The steps under the mutex of the node. */
  lemma FullRead(c: Config, s: State, t: Tid, ch: Choice, s': State)
    requires ValidConfig(c) && Step(c, s, t, ch) == Some(s') && t in s.threads && t in s'.threads
    requires s.threads[t].pc in {WalkMarkedAgain, WalkLinkedAgain, WalkRead} && Reader(s.threads[t].call)
    requires CallFull(c, s'.heap, s'.past, s.threads[t])
    ensures CallFull(c, s'.heap, s'.past, s'.threads[t])
  {
    hide CallFull;
    var th, th' := s.threads[t], s'.threads[t];
    if th.pc == WalkMarkedAgain {
      assert StepWalkMarkedAgain(s, t, th) == Some(s');
      hide Step;
      if s.heap[th.cur].marked {
        SkipDone(c, s'.heap, s'.past, th, th');
      } else {
        SameDone(c, s'.heap, s'.past, th, th');
      }
    } else if th.pc == WalkLinkedAgain {
      assert StepWalkLinkedAgain(s, t, th) == Some(s');
      hide Step;
      if s.heap[th.cur].fullyLinked {
        SameDone(c, s'.heap, s'.past, th, th');
      } else {
        SkipDone(c, s'.heap, s'.past, th, th');
      }
    } else {
      assert StepWalkRead(s, t, th) == Some(s');
      hide Step;
      ReadDone(c, s'.heap, s'.past, th, th', s.heap[th.cur].value);
    }
  }

  /** Locking, unlocking and returning. */
  lemma FullLocks(c: Config, s: State, t: Tid, ch: Choice, s': State)
    requires Step(c, s, t, ch) == Some(s') && t in s.threads && t in s'.threads && KindOk(s.threads[t])
    requires s.threads[t].pc in {Acquire, Release, Done} && Reader(s.threads[t].call)
    requires CallFull(c, s'.heap, s'.past, s.threads[t])
    ensures CallFull(c, s'.heap, s'.past, s'.threads[t])
  {
    hide CallFull, PutPcs, DeletePcs, ReadPcs;
    var th, th' := s.threads[t], s'.threads[t];
    if th.pc == Acquire {
      assert AcquireNext(s, t, th) == Some(s');
      hide Step;
      SameDone(c, s'.heap, s'.past, th, th');
    } else if th.pc == Release {
      assert ReleaseOne(s, t, th, ch) == Some(s');
      hide Step;
      SameDone(c, s'.heap, s'.past, th, th');
    } else {
      ReturnIdles(c, s, t, ch, s');
      NoReader(c, s'.heap, s'.past, th');
    }
  }

  lemma FullActor(c: Config, s: State, t: Tid, ch: Choice, s': State)
    requires Core(c, s) && HeapInv(c, s'.heap) && Evolves(s.heap, s'.heap) && Step(c, s, t, ch) == Some(s')
    requires t in s.threads && t in s'.threads && s'.past == s.past + [s'.heap]
    requires |s.past| > 0 && s.past[|s.past| - 1] == s.heap
    requires CallPast(c, s, t) && CallPast(c, s', t) && CallLogged(s, t) && KindOk(s.threads[t])
    requires CallFull(c, s.heap, s.past, s.threads[t])
    ensures CallFull(c, s'.heap, s'.past, s'.threads[t])
  {
    hide HeapInv, Hindsight, Evolves, Step, CallFull, AgentsKnown, ThreadsOk, CallLogged;
    var th := s.threads[t];
    if th.pc == Idle {
      FullInvoke(c, s, t, ch, s');
    } else {
      FullLater(c, s.heap, s'.heap, s.past, th);
      SameKind(c, s, t, ch, s');
      if !Reader(th.call) {
        NoReader(c, s'.heap, s'.past, s'.threads[t]);
      } else if th.pc in {ReadLevel, Descend, Decide} {
        FullSearch(c, s, t, ch, s');
      } else if th.pc in {WalkLoad, WalkMarked, WalkLinked} {
        HindsightKept(c, s.heap, s'.heap, s.past, th.began, th.call.key);
        FullWalk(c, s, t, ch, s');
      } else if th.pc in {WalkMarkedAgain, WalkLinkedAgain, WalkRead} {
        FullRead(c, s, t, ch, s');
      } else {
        ReaderPcs(th);
        FullLocks(c, s, t, ch, s');
      }
    }
  }

  lemma NoReader(c: Config, h: Heap, past: seq<Heap>, th: Thread)
    requires th.pc == Idle || !Reader(th.call)
    ensures CallFull(c, h, past, th)
  {
  }

  lemma ReaderPcs(th: Thread)
    requires KindOk(th) && Reader(th.call)
    requires th.pc !in {Idle, ReadLevel, Descend, Decide, WalkLoad, WalkMarked, WalkLinked, WalkMarkedAgain,
             WalkLinkedAgain, WalkRead}
    ensures th.pc in {Acquire, Release, Done}
  {
  }

  ghost predicate AllFull(c: Config, s: State) {
    forall t :: t in s.threads ==> CallFull(c, s.heap, s.past, s.threads[t])
  }

  lemma FullStep(c: Config, s: State, t: Tid, ch: Choice, s': State)
    requires Inv(c, s) && Inv(c, s') && Step(c, s, t, ch) == Some(s') && AllFull(c, s)
    ensures AllFull(c, s')
  {
    hide HeapInv, ThreadsOk, AgentsKnown, LogOk, SizeOk, CallLogged, CallPast, CallFull, Step, KindOk, Evolves;
    StepActs(c, s, t, ch);
    KindAt(c, s, t);
    StepFrame(c, s, t, ch, s');
    CoreStep(c, s, t, ch, s');
    forall u | u in s'.threads ensures CallFull(c, s'.heap, s'.past, s'.threads[u]) {
      assert u in s.threads && CallPast(c, s, u) && CallFull(c, s.heap, s.past, s.threads[u]);
      if u == t {
        FullActor(c, s, t, ch, s');
      } else {
        PastOf(c, s, u);
        FullLater(c, s.heap, s'.heap, s.past, s.threads[u]);
      }
    }
  }

  lemma PastOf(c: Config, s: State, t: Tid)
    requires CallPast(c, s, t)
    ensures s.threads[t].pc != Idle ==> Hindsight(c, s.heap, s.past, s.threads[t].began, s.threads[t].call.key)
  {
    hide Hindsight;
  }

  lemma FullIdle(c: Config, s: State)
    requires AllIdle(s)
    ensures AllFull(c, s)
  {
    forall t | t in s.threads ensures CallFull(c, s.heap, s.past, s.threads[t]) {
      NoReader(c, s.heap, s.past, s.threads[t]);
    }
  }

  lemma {:induction false} FullReachable(c: Config, run: seq<State>, i: nat)
    requires ValidConfig(c) && IsRun(c, run) && i < |run|
    ensures AllFull(c, run[i])
  {
    hide Inv, Step, AllFull, Init;
    Reachable(c, run, i);
    if i == 0 {
      assert AllIdle(run[0]) by { InitIdle(c, run[0]); }
      FullIdle(c, run[0]);
    } else {
      Reachable(c, run, i - 1);
      FullReachable(c, run, i - 1);
      var s, s' := run[i - 1], run[i];
      assert Next(c, s, s');
      if t, ch :| Step(c, s, t, ch) == Some(s') {
        FullStep(c, s, t, ch, s');
      } else {
        FullIdle(c, s');
      }
    }
  }

  lemma InitIdle(c: Config, s: State)
    requires Init(c, s)
    ensures AllIdle(s)
  {
  }

  // ------------------------------------------------------------------- results

  /** The key is in the map in every state from `from` to `i`. */
  ghost predicate PresentThroughout(run: seq<State>, from: nat, i: nat, key: Bytes) {
    from <= i < |run| && forall j :: from <= j <= i ==> !NoLiveKey(run[j].heap, key)
  }

  /** A step that leaves the key in the map leaves its live node alone. */
  lemma NodeStays(c: Config, s: State, s': State, m: Addr)
    requires Inv(c, s) && Next(c, s, s') && Live(s.heap, m) && !NoLiveKey(s'.heap, s.heap[m].key)
    ensures Live(s'.heap, m) && s'.heap[m].key == s.heap[m].key
  {
    hide HeapInv, ThreadsOk, AgentsKnown, LogOk, SizeOk, CallLogged, CallPast, Step, Live;
    if t, ch :| Step(c, s, t, ch) == Some(s') {
      StepActs(c, s, t, ch);
      CoreStep(c, s, t, ch, s');
      NodeKept(c, s, t, ch, s', m);
    } else {
      ClearLive(c, s);
    }
  }

  lemma ClearLive(c: Config, s: State)
    ensures forall n :: !Live(Clear(c, s).heap, n)
  {
  }

  lemma NodeKept(c: Config, s: State, t: Tid, ch: Choice, s': State, m: Addr)
    requires Core(c, s) && Step(c, s, t, ch) == Some(s') && t in s.threads && Evolves(s.heap, s'.heap)
    requires Live(s.heap, m) && !NoLiveKey(s'.heap, s.heap[m].key)
    ensures Live(s'.heap, m) && s'.heap[m].key == s.heap[m].key
  {
    hide HeapInv, ThreadsOk, AgentsKnown, Step;
    assert m in LiveNodes(s.heap);
    if s.threads[t].pc in {WriteValue, SetLinked, Mark} {
      UpdateLive(c, s, t, ch, s');
      if m !in LiveNodes(s'.heap) {
        LiveUnique(c, s.heap);
        forall n | Live(s'.heap, n) ensures s'.heap[n].key != s.heap[m].key {
          assert n in LiveNodes(s'.heap) && n in LiveNodes(s.heap);
        }
      }
    } else {
      QuietSteps(c, s, t, ch, s');
      QuietLive(s.heap, s'.heap);
    }
    assert m in LiveNodes(s'.heap);
  }

  lemma KeyNode(h: Heap, key: Bytes) returns (m: Addr)
    requires !NoLiveKey(h, key)
    ensures Live(h, m) && h[m].key == key
  {
    m :| Live(h, m) && h[m].key == key;
  }

  /** A key in the map throughout has one node, live throughout. */
  lemma {:induction false} NodeThroughout(c: Config, run: seq<State>, from: nat, i: nat, key: Bytes) returns (m: Addr)
    requires ValidConfig(c) && IsRun(c, run) && PresentThroughout(run, from, i, key)
    ensures forall j :: from <= j <= i ==> Live(run[j].heap, m) && run[j].heap[m].key == key
    decreases i
  {
    hide Inv, Next, Live, Init;
    if i == from {
      m := KeyNode(run[i].heap, key);
    } else {
      m := NodeThroughout(c, run, from, i - 1, key);
      Reachable(c, run, i - 1);
      assert Next(c, run[i - 1], run[i]);
      NodeStays(c, run[i - 1], run[i], m);
    }
  }

  lemma NodeInPast(c: Config, run: seq<State>, t: Tid, i: nat, key: Bytes) returns (m: Addr)
    requires ValidConfig(c) && IsRun(c, run) && i < |run| && t in run[i].threads
    requires PresentThroughout(run, run[i].threads[t].began, i, key)
    ensures StaysLive(run[i].past, run[i].threads[t].began, m) && m in run[i].heap && run[i].heap[m].key == key
  {
    hide IsRun, Inv, Live, PresentThroughout, NoLiveKey;
    var began := run[i].threads[t].began;
    Reachable(c, run, i);
    m := NodeThroughout(c, run, began, i, key);
    assert began <= i by { PresentBounds(run, began, i, key); }
    assert Live(run[i].heap, m);
    assert m in run[i].heap by { LiveIn(run[i].heap, m); }
  }

  lemma PresentBounds(run: seq<State>, from: nat, i: nat, key: Bytes)
    requires PresentThroughout(run, from, i, key)
    ensures from <= i < |run|
  {
  }

  lemma LiveIn(h: Heap, m: Addr)
    requires Live(h, m)
    ensures m in h
  {
  }

  /**
   * Under any interleaving, Snapshot answers every key, and Scan every key from its start
   * to its end, that is in the map throughout the call.
   */
  lemma ReadersComplete(c: Config, run: seq<State>, i: nat, t: Tid, key: Bytes)
    requires ValidConfig(c) && IsRun(c, run) && i < |run| && t in run[i].threads && run[i].threads[t].pc == Done
    requires InScope(c, run[i].threads[t].call, key) && PresentThroughout(run, run[i].threads[t].began, i, key)
    ensures Collected(run[i].threads[t].result, key)
  {
    hide IsRun, Steady, StaysLive, Collected, PresentThroughout;
    FullReachable(c, run, i);
    var m := NodeInPast(c, run, t, i, key);
    assert CallFull(c, run[i].heap, run[i].past, run[i].threads[t]);
  }

  /**
   * A Get that answers false ran while its key was absent at some moment of the call, unless
   * the node it loads after its search lies below the key: only then can it miss a key that
   * is in the map throughout the call.
   */
  lemma GetMisses(c: Config, run: seq<State>, i: nat, t: Tid)
    requires ValidConfig(c) && IsRun(c, run) && i < |run| && t in run[i].threads && run[i].threads[t].pc == Done
    requires run[i].threads[t].call.Get? && !run[i].threads[t].ret
    ensures var th := run[i].threads[t];
            || (exists j :: th.began <= j <= i && NoLiveKey(run[j].heap, th.call.key))
            || Overtaken(c, run[i].heap, th)
  {
    hide IsRun, Steady, StaysLive, Collected, Overtaken, NoLiveKey;
    var th := run[i].threads[t];
    FullReachable(c, run, i);
    Reachable(c, run, i);
    assert CallFull(c, run[i].heap, run[i].past, th);
    Begun(c, run[i].heap, run[i].past, th.began);
    if PresentThroughout(run, th.began, i, th.call.key) {
      var m := NodeInPast(c, run, t, i, th.call.key);
    }
  }
}
