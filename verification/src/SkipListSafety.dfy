/** The inductive invariant of the concurrent skip list and its preservation by every step. */
module SkipListSafety {
  import opened Wrappers
  import opened Bytes
  import opened SkipListMachine
  import opened SkipListHeap
  import opened SkipListThreads
  import opened SkipListSteps
  import opened SkipListHistory

  // ------------------------------------------------- heap and thread knowledge

  ghost predicate AgentsKnown(c: Config, s: State) {
    && (forall n :: n in s.heap && s.heap[n].owner.Some? ==> s.heap[n].owner.value in s.threads)
    && (forall n :: InTransit(c, s.heap, n) ==> s.heap[n].agent.Some? && s.heap[n].agent.value in s.threads)
  }

  ghost predicate ThreadsOk(c: Config, s: State) {
    forall t :: t in s.threads ==> ThreadOk(c, s.heap, t, s.threads[t])
  }

  ghost predicate Core(c: Config, s: State) {
    && ValidConfig(c) && HeapInv(c, s.heap) && 1 <= s.level <= c.maxLevel
    && ThreadsOk(c, s) && AgentsKnown(c, s)
  }

  lemma AgentsStable(c: Config, s: State, s': State, t: Tid)
    requires HeapInv(c, s'.heap) && AgentsKnown(c, s) && Establishes(c, s, s', t) && t in s.threads
    ensures AgentsKnown(c, s')
  {
    hide HeapInv, Evolves, ThreadOk;
    forall n | n in s'.heap && s'.heap[n].owner.Some? ensures s'.heap[n].owner.value in s'.threads {
      var u := s'.heap[n].owner.value;
      if u != t { assert Rely(c, s.heap, s'.heap, u); }
    }
    forall n | InTransit(c, s'.heap, n) ensures s'.heap[n].agent.Some? && s'.heap[n].agent.value in s'.threads {
      NodeAt(c, s'.heap, n);
      assert HasLevel(s'.heap, n, 0);
      GuardAt(c, s'.heap, n, 0);
      var u := s'.heap[n].agent.value;
      if u != t { assert Rely(c, s.heap, s'.heap, u); }
    }
  }

  lemma CoreStep(c: Config, s: State, t: Tid, ch: Choice, s': State)
    requires Core(c, s) && Step(c, s, t, ch) == Some(s')
    ensures Core(c, s') && Evolves(s.heap, s'.heap)
  {
    hide HeapInv, ThreadOk, Rely, Evolves, AgentsKnown, Step;
    assert t in s.threads by { StepActs(c, s, t, ch); }
    AnyStep(c, s, t, ch, s');
    forall u | u in s'.threads ensures ThreadOk(c, s'.heap, u, s'.threads[u]) {
      if u != t {
        assert Rely(c, s.heap, s'.heap, u);
        ThreadStable(c, s.heap, s'.heap, u, s.threads[u]);
      }
    }
    AgentsStable(c, s, s', t);
  }

  lemma StepActs(c: Config, s: State, t: Tid, ch: Choice)
    requires Step(c, s, t, ch).Some?
    ensures t in s.threads
  {
  }

  lemma EmptyHeapOk(c: Config)
    requires ValidConfig(c)
    ensures HeapInv(c, EmptyHeap(c))
  {
    var h := EmptyHeap(c);
    assert forall n :: InLevel(h, n, 0) ==> n == c.head;
  }

  lemma IdleOk(c: Config, s: State)
    requires ValidConfig(c) && s.heap == EmptyHeap(c) && 1 <= s.level <= c.maxLevel
    requires forall t :: t in s.threads ==> s.threads[t].pc == Idle && s.threads[t].locks == {}
    ensures Core(c, s)
  {
    hide HeapInv;
    EmptyHeapOk(c);
  }

  lemma CoreClear(c: Config, s: State)
    requires Core(c, s) && AllIdle(s)
    ensures Core(c, Clear(c, s))
  {
    hide HeapInv, AgentsKnown;
    forall t | t in s.threads ensures s.threads[t].locks == {} {
      assert ThreadOk(c, s.heap, t, s.threads[t]);
    }
    IdleOk(c, Clear(c, s));
  }

  // ------------------------------------------------------- the abstract map

  /** The map a quiescent observer would read: live nodes, by key. */
  ghost function Contents(c: Config, h: Heap): map<Bytes, Bytes>
    requires HeapInv(c, h)
  {
    LiveUnique(c, h);
    map n | n in h && Live(h, n) :: h[n].key := h[n].value
  }

  /** At most one live node per key. */
  lemma LiveUnique(c: Config, h: Heap)
    requires HeapInv(c, h)
    ensures forall n, m :: Live(h, n) && Live(h, m) && h[n].key == h[m].key ==> n == m
  {
    hide HeapInv;
    HeadAt(c, h);
    forall n, m | Live(h, n) && Live(h, m) && h[n].key == h[m].key ensures n == m {
      NodeAt(c, h, n);
      NodeAt(c, h, m);
      KeysAt(c, h, n, m);
    }
  }

  lemma ContentsAt(c: Config, h: Heap, n: Addr)
    requires HeapInv(c, h) && Live(h, n)
    ensures h[n].key in Contents(c, h) && Contents(c, h)[h[n].key] == h[n].value
  {
    hide HeapInv;
    LiveUnique(c, h);
  }

  lemma ContentsFrom(c: Config, h: Heap, key: Bytes)
    requires HeapInv(c, h)
    ensures key in Contents(c, h) <==> !NoLiveKey(h, key)
    ensures key in Contents(c, h) ==> LivePair(h, key, Contents(c, h)[key])
  {
    hide HeapInv;
    if !NoLiveKey(h, key) {
      var n :| Live(h, n) && h[n].key == key;
      ContentsAt(c, h, n);
    }
  }

  /** What the log's entries do to a map, and when their answers are right. */
  function Effect(m: map<Bytes, Bytes>, e: Event): map<Bytes, Bytes> {
    match e
    case Update(_, Put(k, v), _) => m[k := v]
    case Update(_, Delete(k), _) => m - {k}
    case Update(_, _, _) => m
    case Cleared => map[]
  }

  predicate Correct(m: map<Bytes, Bytes>, e: Event) {
    match e
    case Update(_, Put(k, _), ret) => ret == (k !in m)
    case Update(_, Delete(k), ret) => ret && k in m
    case Update(_, _, _) => false
    case Cleared => true
  }

  function Outcome(log: seq<Event>): map<Bytes, Bytes> {
    if log == [] then map[] else Effect(Outcome(log[..|log| - 1]), log[|log| - 1])
  }

  /** Run one entry after the other on the empty map, every entry answers as the map says. */
  predicate Legal(log: seq<Event>) {
    log == [] || (Legal(log[..|log| - 1]) && Correct(Outcome(log[..|log| - 1]), log[|log| - 1]))
  }

  ghost predicate LogOk(c: Config, s: State)
    requires HeapInv(c, s.heap)
  {
    Legal(s.log) && Outcome(s.log) == Contents(c, s.heap)
  }

  lemma LogGrows(log: seq<Event>, e: Event)
    requires Legal(log) && Correct(Outcome(log), e)
    ensures Legal(log + [e]) && Outcome(log + [e]) == Effect(Outcome(log), e)
  {
    assert (log + [e])[..|log|] == log;
  }

  /** Steps that neither write values nor change which nodes are live. */
  ghost predicate Quiet(h: Heap, h': Heap) {
    && (forall n :: n in h ==> n in h' && h'[n].key == h[n].key && h'[n].value == h[n].value
                               && h'[n].marked == h[n].marked && h'[n].fullyLinked == h[n].fullyLinked)
    && (forall n :: n in h' && n !in h ==> !h'[n].fullyLinked)
  }

  lemma LocalSearch(c: Config, s: State, t: Tid, ch: Choice, s': State)
    requires Step(c, s, t, ch) == Some(s')
    requires s.threads[t].pc in {Idle, ReadLevel, Descend, Decide, Done}
    ensures s'.heap == s.heap && s'.log == s.log
  {
  }

  lemma LocalChecks(c: Config, s: State, t: Tid, ch: Choice, s': State)
    requires Step(c, s, t, ch) == Some(s')
    requires s.threads[t].pc in {CheckMarked, CheckLinked, InsertPred, InsertSucc, InsertForward,
                              VictimLinked, VictimMarked, DeletePred, DeleteForward, UnlinkLoad}
    ensures s'.heap == s.heap && s'.log == s.log
  {
  }

  lemma LocalCounters(c: Config, s: State, t: Tid, ch: Choice, s': State)
    requires Step(c, s, t, ch) == Some(s')
    requires s.threads[t].pc in {AddSize, RaiseLoad, RaiseCas, SubSize, Recompute, StoreLevel}
    ensures s'.heap == s.heap && s'.log == s.log
  {
  }

  lemma LocalReads(c: Config, s: State, t: Tid, ch: Choice, s': State)
    requires Step(c, s, t, ch) == Some(s')
    requires s.threads[t].pc in {WalkLoad, WalkMarked, WalkLinked, WalkMarkedAgain, WalkLinkedAgain, WalkRead}
    ensures s'.heap == s.heap && s'.log == s.log
  {
  }

  lemma LocalSteps(c: Config, s: State, t: Tid, ch: Choice, s': State)
    requires Step(c, s, t, ch) == Some(s')
    requires s.threads[t].pc !in {WriteValue, SetLinked, Mark, Acquire, Release, Alloc, Link, UnlinkStore}
    ensures s'.heap == s.heap && s'.log == s.log
  {
    StepActs(c, s, t, ch);
    hide Step;
    match s.threads[t].pc {
      case Idle | ReadLevel | Descend | Decide | Done => LocalSearch(c, s, t, ch, s');
      case AddSize | RaiseLoad | RaiseCas | SubSize | Recompute | StoreLevel => LocalCounters(c, s, t, ch, s');
      case WalkLoad | WalkMarked | WalkLinked | WalkMarkedAgain | WalkLinkedAgain | WalkRead =>
          LocalReads(c, s, t, ch, s');
      case _ => LocalChecks(c, s, t, ch, s');
    }
  }

  lemma QuietSteps(c: Config, s: State, t: Tid, ch: Choice, s': State)
    requires Step(c, s, t, ch) == Some(s') && s.threads[t].pc !in {WriteValue, SetLinked, Mark}
    ensures Quiet(s.heap, s'.heap) && s'.log == s.log
  {
    if s.threads[t].pc in {Acquire, Release, Alloc} {
      QuietLocks(c, s, t, ch, s');
    } else if s.threads[t].pc in {Link, UnlinkStore} {
      QuietStores(c, s, t, ch, s');
    } else {
      LocalSteps(c, s, t, ch, s');
    }
  }

  lemma QuietLocks(c: Config, s: State, t: Tid, ch: Choice, s': State)
    requires Step(c, s, t, ch) == Some(s') && s.threads[t].pc in {Acquire, Release, Alloc}
    ensures Quiet(s.heap, s'.heap) && s'.log == s.log
  {
    var th := s.threads[t];
    match th.pc {
      case Acquire => assert AcquireNext(s, t, th) == Some(s');
      case Release => assert ReleaseOne(s, t, th, ch) == Some(s');
      case Alloc => assert StepAlloc(s, t, th, ch) == Some(s');
    }
    hide Step;
  }

  lemma QuietStores(c: Config, s: State, t: Tid, ch: Choice, s': State)
    requires Step(c, s, t, ch) == Some(s') && s.threads[t].pc in {Link, UnlinkStore}
    ensures Quiet(s.heap, s'.heap) && s'.log == s.log
  {
    hide Quiet, SetForward, SetLinkedLevels;
    var th := s.threads[t];
    if th.pc == Link {
      assert StepLink(s, t, th) == Some(s');
      hide Step;
      StoreQuiet(s.heap, th.preds[th.level], th.level, th.node, th.node, th.level + 1);
    } else {
      assert StepUnlinkStore(s, t, th) == Some(s');
      hide Step;
      StoreQuiet(s.heap, th.preds[th.level - 1], th.level - 1, th.next, th.node, th.level - 1);
    }
  }

  lemma StoreQuiet(h: Heap, g: Addr, l: nat, target: Addr, n: Addr, linked: nat)
    requires HasLevel(h, g, l) && n in h
    ensures n in SetForward(h, g, l, target) && Quiet(h, SetLinkedLevels(SetForward(h, g, l, target), n, linked))
  {
  }

  lemma ContentsQuiet(c: Config, h: Heap, h': Heap)
    requires HeapInv(c, h) && HeapInv(c, h') && Quiet(h, h')
    ensures Contents(c, h') == Contents(c, h)
  {
    hide HeapInv;
    forall k ensures k in Contents(c, h) <==> k in Contents(c, h')
             ensures k in Contents(c, h) ==> Contents(c, h')[k] == Contents(c, h)[k] {
      ContentsFrom(c, h, k);
      ContentsFrom(c, h', k);
      if k in Contents(c, h) {
        var n :| Live(h, n) && h[n].key == k && h[n].value == Contents(c, h)[k];
        assert Live(h', n);
        ContentsAt(c, h', n);
      }
      if k in Contents(c, h') {
        var n :| Live(h', n) && h'[n].key == k && h'[n].value == Contents(c, h')[k];
        assert Live(h, n);
        ContentsAt(c, h, n);
      }
    }
  }

  lemma OtherKeyKept(c: Config, h: Heap, h': Heap, n: Addr, k: Bytes)
    requires HeapInv(c, h) && HeapInv(c, h') && n in h && n in h' && h' == h[n := h'[n]] && h'[n].key == h[n].key != k
    ensures k in Contents(c, h) ==> k in Contents(c, h') && Contents(c, h')[k] == Contents(c, h)[k]
  {
    hide HeapInv, Contents;
    ContentsFrom(c, h, k);
    if k in Contents(c, h) {
      var m :| Live(h, m) && h[m].key == k && h[m].value == Contents(c, h)[k];
      assert Live(h', m);
      ContentsAt(c, h', m);
    }
  }

  /** A change of the map at one key, seen node by node. */
  lemma ContentsChanged(c: Config, h: Heap, h': Heap, n: Addr)
    requires HeapInv(c, h) && HeapInv(c, h') && n in h && n in h' && h' == h[n := h'[n]] && h'[n].key == h[n].key
    requires Live(h, n) || NoLiveKey(h, h[n].key)
    ensures Live(h', n) ==> Contents(c, h') == Contents(c, h)[h[n].key := h'[n].value]
    ensures !Live(h', n) ==> Contents(c, h') == Contents(c, h) - {h[n].key}
  {
    hide HeapInv, Contents;
    LiveUnique(c, h);
    var key := h[n].key;
    if Live(h', n) { ContentsAt(c, h', n); }
    forall k | k != key
      ensures k in Contents(c, h) <==> k in Contents(c, h')
      ensures k in Contents(c, h) ==> Contents(c, h')[k] == Contents(c, h)[k]
    {
      OtherKeyKept(c, h, h', n, k);
      OtherKeyKept(c, h', h, n, k);
    }
    ContentsFrom(c, h', key);
    forall m | !Live(h', n) && Live(h', m) ensures h'[m].key != key {
      assert m != n;
      assert Live(h, m);
    }
  }

  /** The linearization points: fully_linked of a new node, the value of an
      existing one, marked of a victim. Nothing else changes the map. */
  lemma UpdateSteps(c: Config, s: State, t: Tid, ch: Choice, s': State)
    requires t in s.threads && t in s'.threads && Core(c, s) && Step(c, s, t, ch) == Some(s') && HeapInv(c, s'.heap)
    requires s.threads[t].pc in {WriteValue, SetLinked, Mark}
    ensures |s'.log| == |s.log| + 1 && s'.log == s.log + [Update(t, s.threads[t].call, s'.threads[t].ret)]
    ensures Correct(Contents(c, s.heap), s'.log[|s.log|])
    ensures Contents(c, s'.heap) == Effect(Contents(c, s.heap), s'.log[|s.log|])
  {
    hide HeapInv, AgentsKnown, FindOk;
    var th := s.threads[t];
    var n := th.node;
    assert ThreadOk(c, s.heap, t, th);
    assert n in s.heap && s.heap[n].key == th.call.key;
    if th.pc == SetLinked {
      forall m | Live(s.heap, m) ensures s.heap[m].key != th.call.key {
        HeadAt(c, s.heap);
        NodeAt(c, s.heap, m);
        KeysAt(c, s.heap, m, n);
      }
    } else {
      ContentsAt(c, s.heap, n);
    }
    ContentsFrom(c, s.heap, th.call.key);
    ContentsChanged(c, s.heap, s'.heap, n);
  }

  lemma UpdateActs(c: Config, s: State, t: Tid, ch: Choice, s': State)
    requires t in s.threads && Step(c, s, t, ch) == Some(s') && s.threads[t].pc in {WriteValue, SetLinked, Mark}
    ensures t in s'.threads
  {
    var th := s.threads[t];
    match th.pc {
      case WriteValue => assert StepWriteValue(s, t, th) == Some(s');
      case SetLinked => assert StepSetLinked(s, t, th) == Some(s');
      case Mark => assert StepMark(s, t, th) == Some(s');
    }
  }

  lemma LogStep(c: Config, s: State, t: Tid, ch: Choice, s': State)
    requires Core(c, s) && LogOk(c, s) && Step(c, s, t, ch) == Some(s') && HeapInv(c, s'.heap)
    ensures LogOk(c, s')
  {
    hide HeapInv, AgentsKnown, Step, ThreadOk;
    StepActs(c, s, t, ch);
    if s.threads[t].pc in {WriteValue, SetLinked, Mark} {
      UpdateActs(c, s, t, ch, s');
      UpdateSteps(c, s, t, ch, s');
      LogGrows(s.log, s'.log[|s.log|]);
    } else {
      QuietSteps(c, s, t, ch, s');
      ContentsQuiet(c, s.heap, s'.heap);
    }
  }

  lemma LogClear(c: Config, s: State)
    requires ValidConfig(c) && HeapInv(c, s.heap) && LogOk(c, s) && HeapInv(c, EmptyHeap(c))
    ensures LogOk(c, Clear(c, s))
  {
    hide HeapInv;
    LogGrows(s.log, Cleared);
    assert Contents(c, EmptyHeap(c)) == map[];
  }
}
