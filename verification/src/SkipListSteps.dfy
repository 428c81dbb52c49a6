/** One lemma per kind of step: the acting thread keeps the invariants it is responsible for. */
module SkipListSteps {
  import opened Wrappers
  import opened Bytes
  import opened Orders
  import opened SkipListMachine
  import opened SkipListHeap
  import opened SkipListThreads

  ghost predicate Before'(c: Config, s: State, t: Tid) {
    && ValidConfig(c) && HeapInv(c, s.heap) && 1 <= s.level <= c.maxLevel
    && t in s.threads && ThreadOk(c, s.heap, t, s.threads[t])
  }

  /** What a step of thread `t` establishes. */
  ghost predicate Establishes(c: Config, s: State, s': State, t: Tid) {
    && s'.threads.Keys == s.threads.Keys && t in s'.threads
    && (forall u :: u in s.threads && u != t ==> s'.threads[u] == s.threads[u])
    && HeapInv(c, s'.heap) && 1 <= s'.level <= c.maxLevel
    && Evolves(s.heap, s'.heap) && RelyOthers(c, s.heap, s'.heap, t)
    && ThreadOk(c, s'.heap, t, s'.threads[t])
  }

  /** A step that leaves the heap alone. */
  lemma LocalStep(c: Config, s: State, s': State, t: Tid)
    requires Before'(c, s, t) && s'.heap == s.heap && 1 <= s'.level <= c.maxLevel
    requires t in s'.threads && s'.threads == s.threads[t := s'.threads[t]]
    requires PcOk(c, s.heap, t, s'.threads[t]) && s'.threads[t].locks == s.threads[t].locks
    requires TransitPc(s.threads[t].pc) ==> TransitPc(s'.threads[t].pc) && s'.threads[t].node == s.threads[t].node
    requires s'.threads[t].pc != Idle && !Updating(s'.threads[t]) ==>
               AnswerOk(c, s'.threads[t].call, s'.threads[t].result, s'.threads[t].ret)
    ensures Establishes(c, s, s', t)
  {
    hide HeapInv, PcOk, AnswerOk;
    forall u | u != t ensures Rely(c, s.heap, s.heap, u) {}
  }

  lemma InvokeStep(c: Config, s: State, t: Tid, ch: Choice, s': State)
    requires Before'(c, s, t) && s.threads[t].pc == Idle && Invoke(c, s, t, s.threads[t], ch) == Some(s')
    ensures Establishes(c, s, s', t)
  {
    hide HeapInv, FindOk, PhaseOk, CurOk, TransitMine, LocksMatch, Establishes, StrictTotalOrder;
    HeadAt(c, s.heap);
    var th' := s'.threads[t];
    assert AnswerOk(c, th'.call, th'.result, th'.ret) && th'.locks == {};
    assert th'.call.Snapshot? ==> Walking(c, s.heap, th');
    hide AnswerOk, WalkOk;
    assert PcOk(c, s.heap, t, th');
    hide PcOk;
    LocalStep(c, s, s', t);
  }

  lemma ReadLevelStep(c: Config, s: State, t: Tid, s': State)
    requires Before'(c, s, t) && s.threads[t].pc == ReadLevel && StartDescent(c, s, t, s.threads[t]) == Some(s')
    ensures Establishes(c, s, s', t)
  {
    hide HeapInv, Establishes;
    HeadAt(c, s.heap);
    LocalStep(c, s, s', t);
  }

  /** Recording a level keeps the records bracketing the key. */
  lemma RecordLevel(c: Config, h: Heap, key: Bytes, preds: seq<Addr>, succs: seq<Addr>, found: Option<nat>,
                    l: nat, pred: Addr, cur: Addr, found': Option<nat>)
    requires StrictTotalOrder(c.less) && FindOk(c, h, key, preds, succs, found) && l < c.maxLevel
    requires found.Some? ==> l < found.value
    requires Reached(h, pred, l) && Before(c, h, pred, key)
    requires cur != NULL ==> Reached(h, cur, l) && cur != c.head && !c.less(h[cur].key, key)
    requires found' == if found.None? && cur != NULL && KeysEqual(c, h[cur].key, key) then Some(l) else found
    ensures FindOk(c, h, key, preds[l := pred], succs[l := cur], found')
  {
    var preds', succs' := preds[l := pred], succs[l := cur];
    forall j: nat | j < |preds'| ensures RecordOk(c, h, key, preds'[j], succs'[j], found'.None?, j) {
      assert RecordOk(c, h, key, preds[j], succs[j], found.None?, j);
    }
  }

  lemma DescendStep(c: Config, s: State, t: Tid, s': State)
    requires Before'(c, s, t) && s.threads[t].pc == Descend && DescendOnce(c, s, t, s.threads[t]) == Some(s')
    ensures Establishes(c, s, s', t)
  {
    hide HeapInv, FindOk, PhaseOk, CurOk, TransitMine, LocksMatch, Establishes;
    var th, th' := s.threads[t], s'.threads[t];
    var l := th.level - 1;
    var cur := s.heap[th.pred].forward[l];
    HeadAt(c, s.heap);
    EdgeAt(c, s.heap, th.pred, l);
    if th'.level != th.level {
      RecordLevel(c, s.heap, th.call.key, th.preds, th.succs, th.found, l, th.pred, cur, th'.found);
    }
    LocalStep(c, s, s', t);
  }

  // Checks under the locks

  lemma CheckMarkedStep(c: Config, s: State, t: Tid, s': State)
    requires Before'(c, s, t) && s.threads[t].pc == CheckMarked && StepCheckMarked(s, t, s.threads[t]) == Some(s')
    ensures Establishes(c, s, s', t)
  {
    hide HeapInv, FindOk, WalkOk, TransitMine, LocksMatch, Establishes, CurOk, VictimReady;
    LocalStep(c, s, s', t);
  }

  lemma CheckLinkedStep(c: Config, s: State, t: Tid, s': State)
    requires Before'(c, s, t) && s.threads[t].pc == CheckLinked && StepCheckLinked(s, t, s.threads[t]) == Some(s')
    ensures Establishes(c, s, s', t)
  {
    hide HeapInv, FindOk, WalkOk, TransitMine, LocksMatch, Establishes, CurOk, VictimReady;
    LocalStep(c, s, s', t);
  }

  lemma InsertPredStep(c: Config, s: State, t: Tid, s': State)
    requires Before'(c, s, t) && s.threads[t].pc == InsertPred && StepInsertPred(s, t, s.threads[t]) == Some(s')
    ensures Establishes(c, s, s', t)
  {
    hide HeapInv, FindOk, WalkOk, TransitMine, LocksMatch, Establishes, CurOk, VictimReady;
    LocalStep(c, s, s', t);
  }

  lemma InsertSuccStep(c: Config, s: State, t: Tid, s': State)
    requires Before'(c, s, t) && s.threads[t].pc == InsertSucc && StepInsertSucc(s, t, s.threads[t]) == Some(s')
    ensures Establishes(c, s, s', t)
  {
    hide HeapInv, FindOk, WalkOk, TransitMine, LocksMatch, Establishes, CurOk, VictimReady;
    LocalStep(c, s, s', t);
  }

  lemma InsertForwardStep(c: Config, s: State, t: Tid, s': State)
    requires Before'(c, s, t) && s.threads[t].pc == InsertForward && StepInsertForward(s, t, s.threads[t]) == Some(s')
    ensures Establishes(c, s, s', t)
  {
    hide HeapInv, PcOk, TransitMine, LocksMatch, Establishes, InsertReady, InsertValid;
    var th := s.threads[t];
    AtInsertForward(c, s.heap, t, th);
    BehindInsertForward(c, s.heap, t, th, s'.threads[t]);
    LocalStep(c, s, s', t);
  }

  lemma AtInsertForward(c: Config, h: Heap, t: Tid, th: Thread)
    requires PcOk(c, h, t, th) && th.pc == InsertForward
    ensures InsertReady(c, h, th, th.locks) && th.level <= th.top && InsertValid(h, th.preds, th.succs, th.level)
            && PredUnmarked(h, th)
    ensures th.call.Put? && th.locks != {}
  {
    hide FindOk, InsertValid;
    assert th.preds[0] in th.locks;
  }

  /** One more level has been validated, or the attempt is given up. */
  lemma BehindInsertForward(c: Config, h: Heap, t: Tid, th: Thread, th': Thread)
    requires InsertReady(c, h, th, th.locks) && th.level <= th.top && InsertValid(h, th.preds, th.succs, th.level)
             && PredUnmarked(h, th)
    requires th.call.Put? && th.locks != {} && th.level < |th.preds| == |th.succs|
             && HasLevel(h, th.preds[th.level], th.level)
    requires th' == if h[th.preds[th.level]].forward[th.level] != th.succs[th.level] then Retry(th)
                    else if th.level == th.top then th.(pc := Alloc, level := 0)
                    else th.(pc := InsertPred, level := th.level + 1)
    ensures PcOk(c, h, t, th')
  {
    hide FindOk, WalkOk, CurOk;
  }

  lemma VictimLinkedStep(c: Config, s: State, t: Tid, s': State)
    requires Before'(c, s, t) && s.threads[t].pc == VictimLinked && StepVictimLinked(s, t, s.threads[t]) == Some(s')
    ensures Establishes(c, s, s', t)
  {
    hide HeapInv, FindOk, WalkOk, TransitMine, LocksMatch, Establishes, CurOk, InsertReady;
    LocalStep(c, s, s', t);
  }

  lemma VictimMarkedStep(c: Config, s: State, t: Tid, s': State)
    requires Before'(c, s, t) && s.threads[t].pc == VictimMarked && StepVictimMarked(c, s, t, s.threads[t]) == Some(s')
    ensures Establishes(c, s, s', t)
  {
    hide HeapInv, FindOk, WalkOk, TransitMine, LocksMatch, Establishes, CurOk, InsertReady;
    LocalStep(c, s, s', t);
  }

  lemma DeletePredStep(c: Config, s: State, t: Tid, s': State)
    requires Before'(c, s, t) && s.threads[t].pc == DeletePred && StepDeletePred(s, t, s.threads[t]) == Some(s')
    ensures Establishes(c, s, s', t)
  {
    hide HeapInv, FindOk, WalkOk, TransitMine, LocksMatch, Establishes, CurOk, InsertReady;
    LocalStep(c, s, s', t);
  }

  lemma VictimNext(h: Heap, node: Addr, key: Bytes, preds: seq<Addr>, l: nat)
    requires VictimValid(h, node, key, preds, l) && l < |preds|
    requires HasLevel(h, preds[l], l) && !h[preds[l]].marked && h[preds[l]].forward[l] == node
    ensures VictimValid(h, node, key, preds, l + 1)
  {
  }

  lemma DeleteForwardStep(c: Config, s: State, t: Tid, s': State)
    requires Before'(c, s, t) && s.threads[t].pc == DeleteForward && StepDeleteForward(s, t, s.threads[t]) == Some(s')
    ensures Establishes(c, s, s', t)
  {
    hide HeapInv, FindOk, WalkOk, TransitMine, LocksMatch, Establishes, CurOk, InsertReady, InsertValid, Building,
        Unlinking, AnswerOk;
    var th := s.threads[t];
    if s'.threads[t].pc != Release { VictimNext(s.heap, th.node, th.call.key, th.preds, th.level); }
    hide VictimValid;
    LocalStep(c, s, s', t);
  }

  lemma UnlinkLoadStep(c: Config, s: State, t: Tid, s': State)
    requires Before'(c, s, t) && s.threads[t].pc == UnlinkLoad && StepUnlinkLoad(s, t, s.threads[t]) == Some(s')
    ensures Establishes(c, s, s', t)
  {
    hide HeapInv, FindOk, WalkOk, TransitMine, LocksMatch, Establishes, CurOk, InsertReady;
    LocalStep(c, s, s', t);
  }

  // The counters

  lemma AddSizeStep(c: Config, s: State, t: Tid, s': State)
    requires Before'(c, s, t) && s.threads[t].pc == AddSize && StepAddSize(s, t, s.threads[t]) == Some(s')
    ensures Establishes(c, s, s', t)
  {
    hide HeapInv, FindOk, WalkOk, TransitMine, LocksMatch, Establishes, CurOk, InsertReady, VictimReady;
    LocalStep(c, s, s', t);
  }

  lemma RaiseLoadStep(c: Config, s: State, t: Tid, s': State)
    requires Before'(c, s, t) && s.threads[t].pc == RaiseLoad && StepRaiseLoad(s, t, s.threads[t]) == Some(s')
    ensures Establishes(c, s, s', t)
  {
    hide HeapInv, FindOk, WalkOk, TransitMine, LocksMatch, Establishes, CurOk, InsertReady, VictimReady;
    LocalStep(c, s, s', t);
  }

  lemma RaiseCasStep(c: Config, s: State, t: Tid, ch: Choice, s': State)
    requires Before'(c, s, t) && s.threads[t].pc == RaiseCas && StepRaiseCas(s, t, s.threads[t], ch) == Some(s')
    ensures Establishes(c, s, s', t)
  {
    hide HeapInv, FindOk, WalkOk, TransitMine, LocksMatch, Establishes, CurOk, InsertReady, VictimReady;
    LocalStep(c, s, s', t);
  }

  lemma SubSizeStep(c: Config, s: State, t: Tid, s': State)
    requires Before'(c, s, t) && s.threads[t].pc == SubSize && StepSubSize(c, s, t, s.threads[t]) == Some(s')
    ensures Establishes(c, s, s', t)
  {
    hide HeapInv, FindOk, WalkOk, TransitMine, LocksMatch, Establishes, CurOk, InsertReady, VictimReady;
    LocalStep(c, s, s', t);
  }

  lemma RecomputeStep(c: Config, s: State, t: Tid, s': State)
    requires Before'(c, s, t) && s.threads[t].pc == Recompute && StepRecompute(c, s, t, s.threads[t]) == Some(s')
    ensures Establishes(c, s, s', t)
  {
    hide HeapInv, FindOk, WalkOk, TransitMine, LocksMatch, Establishes, CurOk, InsertReady, VictimReady;
    LocalStep(c, s, s', t);
  }

  lemma StoreLevelStep(c: Config, s: State, t: Tid, s': State)
    requires Before'(c, s, t) && s.threads[t].pc == StoreLevel && StepStoreLevel(s, t, s.threads[t]) == Some(s')
    ensures Establishes(c, s, s', t)
  {
    hide HeapInv, FindOk, WalkOk, TransitMine, LocksMatch, Establishes, CurOk, InsertReady, VictimReady, AnswerOk,
        Building, Unlinking, InsertValid, VictimValid;
    LocalStep(c, s, s', t);
  }

  // Choosing what to lock

  lemma {:induction false} InsertSorted(a: Addr, nodes: seq<Addr>)
    requires Ascending(nodes)
    ensures Ascending(Insert(a, nodes))
    ensures forall x :: x in Insert(a, nodes) <==> x == a || x in nodes
  {
    if nodes != [] && a > nodes[0] {
      InsertSorted(a, nodes[1..]);
      var rest := Insert(a, nodes[1..]);
      assert nodes == [nodes[0]] + nodes[1..];
      forall i | 0 <= i < |rest| ensures nodes[0] < rest[i] {
        assert rest[i] in rest;
      }
    }
  }

  /** LockNodes locks each of the nodes once, in address order. */
  lemma {:induction false} SortUniqueSorts(nodes: seq<Addr>)
    ensures Ascending(SortUnique(nodes)) && Elems(SortUnique(nodes)) == Elems(nodes)
  {
    if nodes != [] {
      SortUniqueSorts(nodes[1..]);
      InsertSorted(nodes[0], SortUnique(nodes[1..]));
      assert forall x :: x in SortUnique(nodes[1..]) <==> x in Elems(nodes[1..]);
      assert forall x :: x in nodes <==> x == nodes[0] || x in nodes[1..];
    }
  }

  /** Acquire may start on the sorted targets. */
  lemma StartAcquire(c: Config, h: Heap, t: Tid, th: Thread, nodes: seq<Addr>)
    requires nodes != [] && th.pc == Acquire && th.targets == SortUnique(nodes) && th.taken == 0 && th.locks == {}
    requires forall i :: 0 <= i < |nodes| ==> nodes[i] in h
    requires th.cont in {InsertPred, VictimLinked} && th.level == 0
    requires PhaseOk(c, h, t, th, th.cont, Elems(nodes))
    ensures PcOk(c, h, t, th)
  {
    hide PhaseOk;
    SortUniqueSorts(nodes);
    assert nodes[0] in Elems(nodes);
    forall i | 0 <= i < |th.targets| ensures th.targets[i] in h {
      assert th.targets[i] in Elems(nodes);
    }
  }

  lemma DecideStep(c: Config, s: State, t: Tid, ch: Choice, s': State)
    requires Before'(c, s, t) && s.threads[t].pc == Decide && DecideNext(c, s, t, s.threads[t], ch) == Some(s')
    ensures Establishes(c, s, s', t)
  {
    hide HeapInv, FindOk, PhaseOk, TransitMine, LocksMatch, Establishes;
    var th, th' := s.threads[t], s'.threads[t];
    FoundNodes(c, s.heap, th);
    if th.call.Put? {
      if th.found.None? {
        DecideInsert(c, s.heap, t, th, ch.level, th');
      } else {
        DecideUpdate(c, s.heap, t, th, th');
      }
    } else if th.call.Delete? && th.found.Some? {
      NodeAt(c, s.heap, th'.node);
      DecideVictim(c, s.heap, t, th, th');
    }
    LocalStep(c, s, s', t);
  }

  /** Everything the search recorded is allocated. */
  lemma FoundNodes(c: Config, h: Heap, th: Thread)
    requires Found(c, h, th)
    ensures |th.preds| == |th.succs| == c.maxLevel
    ensures forall l :: 0 <= l < |th.preds| ==> th.preds[l] in h
    ensures th.found.Some? ==> th.found.value < |th.succs|
    ensures th.found.Some? ==> var n := th.succs[th.found.value];
                               n != NULL && n in h && n != c.head && h[n].key == th.call.key
  {
    forall l: nat | l < |th.preds| ensures th.preds[l] in h {
      assert RecordOk(c, h, th.call.key, th.preds[l], th.succs[l], th.found.None?, l);
    }
  }

  lemma DecideUpdate(c: Config, h: Heap, t: Tid, th: Thread, th': Thread)
    requires Found(c, h, th) && th.locks == {} && th.call.Put? && th.found.Some?
    requires th.found.value < |th.succs| && var n := th.succs[th.found.value];
             th' == th.(pc := Acquire, cont := CheckMarked, node := n, targets := [n], taken := 0)
    ensures PcOk(c, h, t, th')
  {
    hide FindOk, RecordOk;
    FoundNodes(c, h, th);
    assert th'.node in Elems(th'.targets);
  }

  lemma DecideInsert(c: Config, h: Heap, t: Tid, th: Thread, level: nat, th': Thread)
    requires Found(c, h, th) && th.locks == {} && th.call.Put? && th.found.None? && level < c.maxLevel == |th.preds|
    requires th' == th.(pc := Acquire, cont := InsertPred, level := 0, top := level,
                        targets := SortUnique(th.preds[..level + 1]), taken := 0)
    ensures PcOk(c, h, t, th')
  {
    hide FindOk;
    FoundNodes(c, h, th);
    var nodes := th.preds[..level + 1];
    forall l: nat | l <= level ensures th.preds[l] in Elems(nodes) {
      assert nodes[l] in nodes;
    }
    StartAcquire(c, h, t, th', nodes);
  }

  lemma DecideVictim(c: Config, h: Heap, t: Tid, th: Thread, th': Thread)
    requires Found(c, h, th) && th.locks == {} && th.call.Delete? && th.found.Some?
    requires |th.preds| == c.maxLevel && th.found.value < |th.succs|
    requires var victim := th.succs[th.found.value];
             && victim in h && h[victim].topLevel < c.maxLevel
             && th' == th.(pc := Acquire, cont := VictimLinked, level := 0, top := h[victim].topLevel, node := victim,
                           targets := SortUnique(th.preds[..h[victim].topLevel + 1] + [victim]), taken := 0)
    ensures PcOk(c, h, t, th')
  {
    hide FindOk;
    FoundNodes(c, h, th);
    var nodes := th.preds[..th'.top + 1] + [th'.node];
    assert nodes[th'.top + 1] in nodes;
    forall l: nat | l <= th'.top ensures th.preds[l] in Elems(nodes) {
      assert nodes[l] in nodes;
    }
    StartAcquire(c, h, t, th', nodes);
  }

  // Locking and unlocking

  lemma AcquireStep(c: Config, s: State, t: Tid, s': State)
    requires Before'(c, s, t) && s.threads[t].pc == Acquire && AcquireNext(s, t, s.threads[t]) == Some(s')
    ensures Establishes(c, s, s', t)
  {
    hide HeapInv, PcOk, PhaseOk, LocksMatch, RelyOthers, Evolves, TransitMine, AnswerOk;
    var th, th' := s.threads[t], s'.threads[t];
    var n := th.targets[th.taken];
    AtAcquire(c, s.heap, t, th);
    LockEffect(c, s.heap, t, n, s'.heap);
    PhaseAfterLock(c, s.heap, s'.heap, t, n, th, th');
    TransitAfterLock(c, s.heap, s'.heap, t, th, th');
    AfterAcquire(c, s.heap, t, n, th, s'.heap, th');
  }

  lemma AtAcquire(c: Config, h: Heap, t: Tid, th: Thread)
    requires PcOk(c, h, t, th) && th.pc == Acquire
    ensures AcquireOk(h, th) && PhaseOk(c, h, t, th, th.cont, Elems(th.targets))
  {
    hide PhaseOk, AcquireOk;
  }

  lemma AfterAcquire(c: Config, h: Heap, t: Tid, n: Addr, th: Thread, h': Heap, th': Thread)
    requires AcquireOk(h, th) && LocksMatch(h, t, th) && n in h && n == th.targets[th.taken]
             && h' == h[n := h[n].(owner := Some(t))]
    requires th' == th.(locks := th.locks + {n}, taken := th.taken + 1,
                        pc := if th.taken + 1 == |th.targets| then th.cont else Acquire)
    requires th.pc == Acquire && PhaseOk(c, h', t, th', th.cont, Elems(th.targets))
    ensures PcOk(c, h', t, th') && LocksMatch(h', t, th')
  {
    hide PhaseOk, Found, Walking, Looking;
    assert th.targets[..th'.taken] == th.targets[..th.taken] + [n];
    assert Elems(th.targets[..th'.taken]) == th'.locks;
    if th'.taken == |th.targets| { assert th.targets[..th'.taken] == th.targets; }
  }

  lemma PhaseAfterLock(c: Config, h: Heap, h': Heap, t: Tid, n: Addr, th: Thread, th': Thread)
    requires n in h && h' == h[n := h[n].(owner := Some(t))] && Evolves(h, h')
    requires th.cont in {CheckMarked, InsertPred, VictimLinked, WalkMarkedAgain}
    requires PhaseOk(c, h, t, th, th.cont, Elems(th.targets))
    requires th' == th.(locks := th'.locks, taken := th'.taken, pc := th'.pc)
    requires th.cont == InsertPred ==> th.level == 0
    ensures PhaseOk(c, h', t, th', th.cont, Elems(th.targets))
  {
    hide FindOk, Evolves;
    if Found(c, h, th) { FindStable(c, h, h', th); }
  }

  /** A thread that merely locks or unlocks has nothing in transit before or after. */
  lemma TransitAfterLock(c: Config, h: Heap, h': Heap, t: Tid, th: Thread, th': Thread)
    requires TransitMine(c, h, t, th) && !TransitPc(th.pc)
    requires h'.Keys == h.Keys && forall n :: n in h ==> h'[n] == h[n].(owner := h'[n].owner)
    ensures TransitMine(c, h', t, th') && NoTransit(c, h, t)
  {
  }

  lemma ReleaseStep(c: Config, s: State, t: Tid, ch: Choice, s': State)
    requires Before'(c, s, t) && s.threads[t].pc == Release && ReleaseOne(s, t, s.threads[t], ch) == Some(s')
    ensures Establishes(c, s, s', t)
  {
    hide HeapInv, PcOk, RelyOthers, Evolves, TransitMine, AnswerOk;
    var th, th' := s.threads[t], s'.threads[t];
    AtRelease(c, s.heap, t, th);
    TransitAfterLock(c, s.heap, s'.heap, t, th, th');
    UnlockEffect(c, s.heap, t, ch.addr, s'.heap);
    hide Walking;
    WalkStable(c, s.heap, s'.heap, th);
    BehindRelease(c, s'.heap, t, th, th');
  }

  lemma AtRelease(c: Config, h: Heap, t: Tid, th: Thread)
    requires PcOk(c, h, t, th) && th.pc == Release
    ensures th.locks != {} && th.cont in {ReadLevel, Done, WalkLoad}
    ensures (th.cont == ReadLevel ==> Updating(th)) && (th.cont == WalkLoad ==> Walking(c, h, th))
  {
    hide PhaseOk, Walking;
  }

  lemma BehindRelease(c: Config, h: Heap, t: Tid, th: Thread, th': Thread)
    requires th'.pc in {Release, th.cont} && th.cont in {ReadLevel, Done, WalkLoad}
             && th' == th.(pc := th'.pc, locks := th'.locks)
    requires (th'.pc == Release) == (th'.locks != {})
    requires (th.cont == ReadLevel ==> Updating(th)) && (th.cont == WalkLoad ==> Walking(c, h, th))
    ensures PcOk(c, h, t, th')
  {
    hide PhaseOk, WalkOk;
  }

  // Stores

  lemma WriteValueStep(c: Config, s: State, t: Tid, s': State)
    requires Before'(c, s, t) && s.threads[t].pc == WriteValue && StepWriteValue(s, t, s.threads[t]) == Some(s')
    ensures Establishes(c, s, s', t)
  {
    hide HeapInv, FindOk, CurOk, WalkOk, RelyOthers, Evolves, AnswerOk;
    var th := s.threads[t];
    WriteEffect(c, s.heap, t, th.node, th.call.value, s'.heap);
  }

  /** Validated predecessors are guards. */
  lemma InsertGuards(c: Config, h: Heap, t: Tid, th: Thread)
    requires InsertReady(c, h, th, th.locks) && InsertValid(h, th.preds, th.succs, th.top + 1) && LocksMatch(h, t, th)
    ensures ValidGuards(c, h, t, th.preds[..th.top + 1], th.call.key, th.succs[..th.top + 1])
    ensures forall l :: 0 <= l <= th.top && th.succs[l] in h && th.succs[l] != NULL ==>
              c.less(th.call.key, h[th.succs[l]].key)
  {
    forall l: nat | l <= th.top
      ensures th.preds[l] in th.locks && Before(c, h, th.preds[l], th.call.key) && HasLevel(h, th.preds[l], l)
              && l < h[th.preds[l]].linked
      ensures th.succs[l] in h && th.succs[l] != NULL ==> c.less(th.call.key, h[th.succs[l]].key)
    {
      assert RecordOk(c, h, th.call.key, th.preds[l], th.succs[l], th.found.None?, l);
    }
  }

  lemma AllocStep(c: Config, s: State, t: Tid, ch: Choice, s': State)
    requires Before'(c, s, t) && s.threads[t].pc == Alloc && StepAlloc(s, t, s.threads[t], ch) == Some(s')
    ensures Establishes(c, s, s', t)
  {
    hide HeapInv, PcOk, LocksMatch, TransitMine, RelyOthers, Evolves, AnswerOk, ValidGuards, InsertReady, InsertValid;
    var th, th' := s.threads[t], s'.threads[t];
    AtAlloc(c, s.heap, t, th);
    NoneInTransit(c, s.heap, t, th);
    InsertGuards(c, s.heap, t, th);
    HeadAt(c, s.heap);
    AllocEffect(c, s.heap, t, ch.addr, s'.heap[ch.addr], s'.heap);
    FindStable(c, s.heap, s'.heap, th);
    AfterAlloc(c, s.heap, t, th, s'.heap, ch.addr, th');
  }

  lemma AtAlloc(c: Config, h: Heap, t: Tid, th: Thread)
    requires PcOk(c, h, t, th) && th.pc == Alloc
    ensures InsertReady(c, h, th, th.locks) && InsertValid(h, th.preds, th.succs, th.top + 1)
    ensures Found(c, h, th) && th.call.Put? && th.top < c.maxLevel && |th.preds| == |th.succs| == c.maxLevel
  {
    hide InsertValid;
  }

  lemma NoneInTransit(c: Config, h: Heap, t: Tid, th: Thread)
    requires TransitMine(c, h, t, th) && !TransitPc(th.pc)
    ensures NoTransit(c, h, t)
  {
  }

  lemma AfterAlloc(c: Config, h: Heap, t: Tid, th: Thread, h': Heap, a: Addr, th': Thread)
    requires InsertReady(c, h, th, th.locks) && Found(c, h', th) && LocksMatch(h, t, th) && NoTransit(c, h, t)
    requires a !in h && a != c.head && a != NULL && |th.preds| == |th.succs| && th.top < |th.preds|
    requires h' == h[a := Node(th.call.key, th.call.value, th.top, th.succs[..th.top + 1],
                               false, false, None, 0, Some(t), th.preds[..th.top + 1])]
    requires th.call.Put? && th' == th.(pc := Link, level := 0, node := a)
    ensures PcOk(c, h', t, th') && LocksMatch(h', t, th') && TransitMine(c, h', t, th')
  {
    hide FindOk;
  }

  lemma LinkStep(c: Config, s: State, t: Tid, s': State)
    requires Before'(c, s, t) && s.threads[t].pc == Link && StepLink(s, t, s.threads[t]) == Some(s')
    ensures Establishes(c, s, s', t)
  {
    hide HeapInv, FindOk, CurOk, WalkOk, RelyOthers, Evolves, AnswerOk;
    var th := s.threads[t];
    NodeAt(c, s.heap, th.node);
    GuardAt(c, s.heap, th.node, th.level);
    LinkEffect(c, s.heap, t, th.node, th.level, s'.heap);
    FindStable(c, s.heap, s'.heap, th);
    hide PcOk;
    AfterLink(c, s.heap, t, th, s'.heap, s'.threads[t]);
  }

  lemma AfterLink(c: Config, h: Heap, t: Tid, th: Thread, h': Heap, th': Thread)
    requires Building(c, h, t, th) && th.level <= th.top && LocksMatch(h, t, th) && TransitMine(c, h, t, th)
             && th.pc == Link
    requires Found(c, h', th) && HasLevel(h, th.preds[th.level], th.level) && th.preds[th.level] != th.node
    requires h' == Relinked(h, th.preds[th.level], th.level, th.node, th.node, th.level + 1)
    requires th' == th.(pc := if th.level == th.top then SetLinked else Link, level := th.level + 1)
    ensures PcOk(c, h', t, th') && LocksMatch(h', t, th') && TransitMine(c, h', t, th')
  {
    hide FindOk;
  }

  lemma SetLinkedStep(c: Config, s: State, t: Tid, s': State)
    requires Before'(c, s, t) && s.threads[t].pc == SetLinked && StepSetLinked(s, t, s.threads[t]) == Some(s')
    ensures Establishes(c, s, s', t)
  {
    hide HeapInv, PcOk, LocksMatch, TransitMine, RelyOthers, Evolves, AnswerOk, InsertReady;
    var th := s.threads[t];
    AtSetLinked(c, s.heap, t, th);
    SetLinkedEffect(c, s.heap, t, th.node, s'.heap);
    AfterSetLinked(c, s.heap, t, th, s'.heap, s'.threads[t]);
  }

  lemma AtSetLinked(c: Config, h: Heap, t: Tid, th: Thread)
    requires PcOk(c, h, t, th) && th.pc == SetLinked
    ensures Building(c, h, t, th) && th.level == th.top + 1 && th.call.Put?
  {
    hide Found;
  }

  lemma AfterSetLinked(c: Config, h: Heap, t: Tid, th: Thread, h': Heap, th': Thread)
    requires Building(c, h, t, th) && LocksMatch(h, t, th) && TransitMine(c, h, t, th)
    requires h' == h[th.node := h[th.node].(fullyLinked := true)]
    requires th' == th.(pc := AddSize, ret := th'.ret, lin := th'.lin)
    ensures PcOk(c, h', t, th') && LocksMatch(h', t, th') && TransitMine(c, h', t, th')
  {
    assert |th.preds| == c.maxLevel && th.preds[0] in th.locks;
    hide FindOk, Found;
  }

  lemma VictimGuards(c: Config, h: Heap, t: Tid, th: Thread)
    requires VictimReady(c, h, th, th.locks) && VictimValid(h, th.node, th.call.key, th.preds, th.top + 1)
             && LocksMatch(h, t, th)
    ensures ValidGuards(c, h, t, th.preds[..th.top + 1], th.call.key, seq(th.top + 1, _ => th.node))
  {
    forall l: nat | l <= th.top
      ensures th.preds[l] in th.locks && Before(c, h, th.preds[l], th.call.key) && HasLevel(h, th.preds[l], l)
              && l < h[th.preds[l]].linked
    {
      assert RecordOk(c, h, th.call.key, th.preds[l], th.succs[l], th.found.None?, l);
    }
  }

  lemma MarkStep(c: Config, s: State, t: Tid, s': State)
    requires Before'(c, s, t) && s.threads[t].pc == Mark && StepMark(s, t, s.threads[t]) == Some(s')
    ensures Establishes(c, s, s', t)
  {
    hide HeapInv, PcOk, LocksMatch, TransitMine, RelyOthers, Evolves, AnswerOk, ValidGuards, VictimReady, VictimValid;
    var th := s.threads[t];
    AtMark(c, s.heap, t, th);
    NoneInTransit(c, s.heap, t, th);
    VictimGuards(c, s.heap, t, th);
    NodeAt(c, s.heap, th.node);
    assert s.heap[th.node].owner == Some(t) by { OwnVictim(c, s.heap, t, th); }
    MarkEffect(c, s.heap, t, th.node, th.preds[..th.top + 1], s'.heap);
    FindStable(c, s.heap, s'.heap, th);
    AfterMark(c, s.heap, t, th, s'.heap, s'.threads[t]);
  }

  lemma AtMark(c: Config, h: Heap, t: Tid, th: Thread)
    requires PcOk(c, h, t, th) && th.pc == Mark
    ensures VictimReady(c, h, th, th.locks) && VictimValid(h, th.node, th.call.key, th.preds, th.top + 1)
    ensures Found(c, h, th) && th.call.Delete? && th.node in h && th.node in th.locks && Live(h, th.node)
    ensures h[th.node].key == th.call.key && th.top == h[th.node].topLevel < c.maxLevel && |th.preds| == c.maxLevel
  {
  }

  lemma OwnVictim(c: Config, h: Heap, t: Tid, th: Thread)
    requires LocksMatch(h, t, th) && th.node in th.locks
    ensures th.node in h && h[th.node].owner == Some(t)
  {
  }

  lemma AfterMark(c: Config, h: Heap, t: Tid, th: Thread, h': Heap, th': Thread)
    requires VictimReady(c, h, th, th.locks) && Found(c, h', th) && LocksMatch(h, t, th) && NoTransit(c, h, t)
    requires Live(h, th.node) && NodeOk(c, h, th.node) && |th.preds| == c.maxLevel
    requires h' == h[th.node := h[th.node].(marked := true, agent := Some(t), guards := th.preds[..th.top + 1])]
    requires th' == th.(pc := UnlinkLoad, level := th.top + 1, ret := th'.ret, lin := th'.lin)
    ensures PcOk(c, h', t, th') && LocksMatch(h', t, th') && TransitMine(c, h', t, th')
  {
    hide FindOk;
  }

  lemma UnlinkStoreStep(c: Config, s: State, t: Tid, s': State)
    requires Before'(c, s, t) && s.threads[t].pc == UnlinkStore && StepUnlinkStore(s, t, s.threads[t]) == Some(s')
    ensures Establishes(c, s, s', t)
  {
    hide HeapInv, FindOk, CurOk, WalkOk, RelyOthers, Evolves, AnswerOk, StrictTotalOrder;
    var th := s.threads[t];
    GuardAt(c, s.heap, th.node, th.level - 1);
    NodeAt(c, s.heap, th.node);
    UnlinkEffect(c, s.heap, t, th.node, th.level - 1, s'.heap);
    FindStable(c, s.heap, s'.heap, th);
    AfterUnlink(c, s.heap, t, th, s'.heap, s'.threads[t]);
  }

  lemma AfterUnlink(c: Config, h: Heap, t: Tid, th: Thread, h': Heap, th': Thread)
    requires Unlinking(c, h, t, th) && NodeOk(c, h, th.node) && LocksMatch(h, t, th) && TransitMine(c, h, t, th)
             && th.pc == UnlinkStore
    requires Found(c, h', th) && HasLevel(h, th.preds[th.level - 1], th.level - 1) && th.preds[th.level - 1] != th.node
    requires h' == Relinked(h, th.preds[th.level - 1], th.level - 1, th.next, th.node, th.level - 1)
    requires th' == th.(pc := if th.level == 1 then SubSize else UnlinkLoad, level := th.level - 1)
    ensures PcOk(c, h', t, th') && LocksMatch(h', t, th') && TransitMine(c, h', t, th')
  {
    hide FindOk;
    assert th.node in th'.locks;
  }

  // Readers

  lemma WalkLoadStep(c: Config, s: State, t: Tid, s': State)
    requires Before'(c, s, t) && s.threads[t].pc == WalkLoad && StepWalkLoad(c, s, t, s.threads[t]) == Some(s')
    ensures Establishes(c, s, s', t)
  {
    hide HeapInv, FindOk, TransitMine, LocksMatch, AnswerOk, Establishes;
    EdgeAt(c, s.heap, s.threads[t].pred, 0);
    LocalStep(c, s, s', t);
  }

  /** A node that has been looked at is a place to walk on from. */
  lemma WalkOnward(c: Config, h: Heap, call: Call, cur: Addr, result: seq<(Bytes, Bytes)>, ret: bool)
    requires StrictTotalOrder(c.less) && CurOk(c, h, call, cur, result, ret)
    ensures WalkOk(c, h, call, cur, result, ret)
  {
  }

  lemma SkipNode(c: Config, h: Heap, t: Tid, th: Thread)
    requires StrictTotalOrder(c.less) && Looking(c, h, th) && th.locks == {}
    ensures PcOk(c, h, t, Onward(th))
  {
    hide CurOk, WalkOk;
    WalkOnward(c, h, th.call, th.cur, th.result, th.ret);
  }

  lemma WalkMarkedStep(c: Config, s: State, t: Tid, s': State)
    requires Before'(c, s, t) && s.threads[t].pc == WalkMarked && StepWalkMarked(s, t, s.threads[t]) == Some(s')
    ensures Establishes(c, s, s', t)
  {
    hide HeapInv, FindOk, TransitMine, LocksMatch, AnswerOk, Establishes, WalkOk, CurOk, StrictTotalOrder, PhaseOk;
    var th := s.threads[t];
    SkipNode(c, s.heap, t, th);
    assert PcOk(c, s.heap, t, th.(pc := WalkLinked));
    hide PcOk;
    LocalStep(c, s, s', t);
  }

  lemma LookingAt(c: Config, h: Heap, th: Thread)
    requires Looking(c, h, th)
    ensures th.cur in h
  {
  }

  lemma WalkAcquire(c: Config, h: Heap, t: Tid, th: Thread, th': Thread)
    requires Looking(c, h, th) && th.locks == {}
    requires th' == th.(pc := Acquire, cont := WalkMarkedAgain, targets := [th.cur], taken := 0)
    ensures PcOk(c, h, t, th')
  {
    hide CurOk;
    LookingAt(c, h, th);
    assert th'.targets[..0] == [];
    assert Elems(th'.targets) == {th.cur} && Elems([]) == {};
  }

  lemma WalkLinkedStep(c: Config, s: State, t: Tid, s': State)
    requires Before'(c, s, t) && s.threads[t].pc == WalkLinked && StepWalkLinked(s, t, s.threads[t]) == Some(s')
    ensures Establishes(c, s, s', t)
  {
    var th := s.threads[t];
    hide HeapInv, FindOk, TransitMine, LocksMatch, AnswerOk, Establishes, WalkOk, CurOk, StrictTotalOrder, PhaseOk;
    SkipNode(c, s.heap, t, th);
    if s'.threads[t].pc == Acquire { WalkAcquire(c, s.heap, t, th, s'.threads[t]); }
    assert PcOk(c, s.heap, t, s'.threads[t]);
    hide PcOk;
    LocalStep(c, s, s', t);
  }

  lemma WalkMarkedAgainStep(c: Config, s: State, t: Tid, s': State)
    requires Before'(c, s, t) && s.threads[t].pc == WalkMarkedAgain
             && StepWalkMarkedAgain(s, t, s.threads[t]) == Some(s')
    ensures Establishes(c, s, s', t)
  {
    var th := s.threads[t];
    hide HeapInv, Found, InsertReady, VictimReady, TransitMine, LocksMatch, AnswerOk, Establishes, WalkOk, CurOk,
        StrictTotalOrder;
    WalkOnward(c, s.heap, th.call, th.cur, th.result, th.ret);
    assert PcOk(c, s.heap, t, s'.threads[t]);
    hide PcOk;
    LocalStep(c, s, s', t);
  }

  lemma WalkLinkedAgainStep(c: Config, s: State, t: Tid, s': State)
    requires Before'(c, s, t) && s.threads[t].pc == WalkLinkedAgain
             && StepWalkLinkedAgain(s, t, s.threads[t]) == Some(s')
    ensures Establishes(c, s, s', t)
  {
    var th := s.threads[t];
    hide HeapInv, Found, InsertReady, VictimReady, TransitMine, LocksMatch, AnswerOk, Establishes, WalkOk, CurOk,
        StrictTotalOrder;
    WalkOnward(c, s.heap, th.call, th.cur, th.result, th.ret);
    assert PcOk(c, s.heap, t, s'.threads[t]);
    hide PcOk;
    LocalStep(c, s, s', t);
  }

  lemma WalkReadStep(c: Config, s: State, t: Tid, s': State)
    requires Before'(c, s, t) && s.threads[t].pc == WalkRead && StepWalkRead(s, t, s.threads[t]) == Some(s')
    ensures Establishes(c, s, s', t)
  {
    hide HeapInv, FindOk, TransitMine, LocksMatch, Establishes;
    LocalStep(c, s, s', t);
  }

  lemma ReturnStep(c: Config, s: State, t: Tid, s': State)
    requires Before'(c, s, t) && s.threads[t].pc == Done && s' == After(s, t, s.heap, s.threads[t].(pc := Idle))
    ensures Establishes(c, s, s', t)
  {
    hide HeapInv, TransitMine, LocksMatch, Establishes;
    LocalStep(c, s, s', t);
  }

  /** Every enabled step keeps what its thread is responsible for. */
  lemma AnyStep(c: Config, s: State, t: Tid, ch: Choice, s': State)
    requires Before'(c, s, t) && Step(c, s, t, ch) == Some(s')
    ensures Establishes(c, s, s', t)
  {
    hide Before', Establishes;
    match s.threads[t].pc {
      case Idle => InvokeStep(c, s, t, ch, s');
      case ReadLevel => ReadLevelStep(c, s, t, s');
      case Descend => DescendStep(c, s, t, s');
      case Decide => DecideStep(c, s, t, ch, s');
      case Acquire => AcquireStep(c, s, t, s');
      case Release => ReleaseStep(c, s, t, ch, s');
      case CheckMarked => CheckMarkedStep(c, s, t, s');
      case CheckLinked => CheckLinkedStep(c, s, t, s');
      case WriteValue => WriteValueStep(c, s, t, s');
      case InsertPred => InsertPredStep(c, s, t, s');
      case InsertSucc => InsertSuccStep(c, s, t, s');
      case InsertForward => InsertForwardStep(c, s, t, s');
      case Alloc => AllocStep(c, s, t, ch, s');
      case Link => LinkStep(c, s, t, s');
      case SetLinked => SetLinkedStep(c, s, t, s');
      case AddSize => AddSizeStep(c, s, t, s');
      case RaiseLoad => RaiseLoadStep(c, s, t, s');
      case RaiseCas => RaiseCasStep(c, s, t, ch, s');
      case VictimLinked => VictimLinkedStep(c, s, t, s');
      case VictimMarked => VictimMarkedStep(c, s, t, s');
      case DeletePred => DeletePredStep(c, s, t, s');
      case DeleteForward => DeleteForwardStep(c, s, t, s');
      case Mark => MarkStep(c, s, t, s');
      case UnlinkLoad => UnlinkLoadStep(c, s, t, s');
      case UnlinkStore => UnlinkStoreStep(c, s, t, s');
      case SubSize => SubSizeStep(c, s, t, s');
      case Recompute => RecomputeStep(c, s, t, s');
      case StoreLevel => StoreLevelStep(c, s, t, s');
      case WalkLoad => WalkLoadStep(c, s, t, s');
      case WalkMarked => WalkMarkedStep(c, s, t, s');
      case WalkLinked => WalkLinkedStep(c, s, t, s');
      case WalkMarkedAgain => WalkMarkedAgainStep(c, s, t, s');
      case WalkLinkedAgain => WalkLinkedAgainStep(c, s, t, s');
      case WalkRead => WalkReadStep(c, s, t, s');
      case Done => ReturnStep(c, s, t, s');
    }
  }
}
