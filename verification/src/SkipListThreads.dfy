/**
 * What a thread of the concurrent skip list knows at each program counter, and
 * why the steps of the other threads cannot take that knowledge away.
 */
module SkipListThreads {
  import opened Wrappers
  import opened Bytes
  import opened SkipListMachine
  import opened SkipListHeap

  function Elems(nodes: seq<Addr>): set<Addr> { set a | a in nodes }

  predicate Ascending(nodes: seq<Addr>) {
    forall i, j :: 0 <= i < j < |nodes| ==> nodes[i] < nodes[j]
  }

  // ------------------------------------------------------------- the search

  ghost predicate RecordOk(c: Config, h: Heap, key: Bytes, p: Addr, n: Addr, missing: bool, l: nat) {
    && Reached(h, p, l) && Before(c, h, p, key)
    && (n != NULL ==>
          && Reached(h, n, l) && n != c.head && !c.less(h[n].key, key)
          && (missing ==> c.less(key, h[n].key)))
  }

  /** predecessors and successors bracket the key at every level. */
  ghost predicate FindOk(c: Config, h: Heap, key: Bytes, preds: seq<Addr>, succs: seq<Addr>, found: Option<nat>) {
    && |preds| == |succs| == c.maxLevel
    && (forall l: nat :: l < |preds| ==> RecordOk(c, h, key, preds[l], succs[l], found.None?, l))
    && (found.Some? ==>
          && found.value < |succs|
          && var n := succs[found.value];
             n != NULL && n in h && n != c.head && h[n].key == key)
  }

  ghost predicate Found(c: Config, h: Heap, th: Thread) {
    !th.call.Snapshot? && FindOk(c, h, th.call.key, th.preds, th.succs, th.found)
  }

  // -------------------------------------------------------------- answers

  ghost predicate SortedPairs(c: Config, pairs: seq<(Bytes, Bytes)>) {
    forall i, j :: 0 <= i < j < |pairs| ==> c.less(pairs[i].0, pairs[j].0)
  }

  /** The answer collected so far by a reader. */
  ghost predicate AnswerOk(c: Config, call: Call, result: seq<(Bytes, Bytes)>, ret: bool) {
    && SortedPairs(c, result)
    && (call.Scan? ==> forall i :: 0 <= i < |result| ==> !c.less(call.end, result[i].0))
    && (call.Get? ==> if ret then |result| == 1 && result[0].0 == call.key else result == [])
  }

  /** A reader stands on `pred` and has dealt with everything up to it. */
  ghost predicate WalkOk(c: Config, h: Heap, call: Call, pred: Addr, result: seq<(Bytes, Bytes)>, ret: bool) {
    && !call.Put? && !call.Delete?
    && Reached(h, pred, 0)
    && (if pred == c.head then result == []
        else forall i :: 0 <= i < |result| ==> !c.less(h[pred].key, result[i].0))
    && (call.Get? ==> !ret)
  }

  /** A reader looks at `cur`, which lies above everything it has collected. */
  ghost predicate CurOk(c: Config, h: Heap, call: Call, cur: Addr, result: seq<(Bytes, Bytes)>, ret: bool) {
    && !call.Put? && !call.Delete?
    && Reached(h, cur, 0) && cur != c.head
    && (forall i :: 0 <= i < |result| ==> c.less(result[i].0, h[cur].key))
    && (call.Get? ==> !ret && h[cur].key == call.key)
    && (call.Scan? ==> !c.less(call.end, h[cur].key))
  }

  ghost predicate Walking(c: Config, h: Heap, th: Thread) { WalkOk(c, h, th.call, th.pred, th.result, th.ret) }

  ghost predicate Looking(c: Config, h: Heap, th: Thread) { CurOk(c, h, th.call, th.cur, th.result, th.ret) }

  ghost predicate Updating(th: Thread) { th.call.Put? || th.call.Delete? }

  /** A search is on behalf of an update or of a reader that has no answer yet. */
  ghost predicate Searching(th: Thread) {
    !th.call.Snapshot? && (Updating(th) || (th.result == [] && !th.ret))
  }

  // -------------------------------------------------- insertion and deletion

  ghost predicate InsertReady(c: Config, h: Heap, th: Thread, locks: set<Addr>) {
    && Found(c, h, th) && th.call.Put? && th.found.None? && th.top < c.maxLevel
    && forall l :: 0 <= l <= th.top ==> th.preds[l] in locks
  }

  /** CanInsert has succeeded for levels below `n`. */
  ghost predicate InsertValid(h: Heap, preds: seq<Addr>, succs: seq<Addr>, n: nat) {
    forall l: nat :: l < n <= |preds| && n <= |succs| ==>
      HasLevel(h, preds[l], l) && !h[preds[l]].marked && h[preds[l]].forward[l] == succs[l]
  }

  ghost predicate PredUnmarked(h: Heap, th: Thread) {
    th.level < |th.preds| && th.preds[th.level] in h && !h[th.preds[th.level]].marked
  }

  /** The new node belongs to this thread and is linked at `th.level` levels. */
  ghost predicate Building(c: Config, h: Heap, t: Tid, th: Thread) {
    && InsertReady(c, h, th, th.locks) && th.node in h && th.node != c.head
    && var n := h[th.node];
       && n.agent == Some(t) && !n.fullyLinked && !n.marked && n.guards == th.preds[..th.top + 1]
       && n.topLevel == th.top && n.key == th.call.key && n.value == th.call.value && n.linked == th.level
  }

  ghost predicate VictimReady(c: Config, h: Heap, th: Thread, locks: set<Addr>) {
    && Found(c, h, th) && th.call.Delete? && th.node in h && th.node != c.head && th.node in locks
    && th.top == h[th.node].topLevel && th.top < c.maxLevel
    && forall l :: 0 <= l <= th.top ==> th.preds[l] in locks
  }

  /** CanDelete has succeeded for levels below `n`. */
  ghost predicate VictimValid(h: Heap, node: Addr, key: Bytes, preds: seq<Addr>, n: nat) {
    && Live(h, node) && h[node].key == key
    && forall l: nat :: l < n <= |preds| ==>
         HasLevel(h, preds[l], l) && !h[preds[l]].marked && h[preds[l]].forward[l] == node
  }

  ghost predicate Unlinking(c: Config, h: Heap, t: Tid, th: Thread) {
    && VictimReady(c, h, th, th.locks) && 1 <= th.level <= th.top + 1
    && var n := h[th.node];
       n.marked && n.agent == Some(t) && n.guards == th.preds[..th.top + 1] && n.linked == th.level
  }

  /** Knowledge while (or, from Acquire, as soon as) the mutexes `locks` are held. */
  ghost predicate PhaseOk(c: Config, h: Heap, t: Tid, th: Thread, pc: Pc, locks: set<Addr>) {
    match pc
    case CheckMarked => th.call.Put? && th.node in locks && th.node in h && th.node != c.head
        && h[th.node].key == th.call.key
    case CheckLinked => th.call.Put? && th.node in locks && th.node in h && th.node != c.head
        && h[th.node].key == th.call.key
                        && !h[th.node].marked
    case WriteValue => th.call.Put? && th.node in locks && Live(h, th.node) && h[th.node].key == th.call.key
    case InsertPred => InsertReady(c, h, th, locks) && th.level <= th.top
        && InsertValid(h, th.preds, th.succs, th.level)
    case InsertSucc => InsertReady(c, h, th, locks) && th.level <= th.top
        && InsertValid(h, th.preds, th.succs, th.level) && PredUnmarked(h, th)
    case InsertForward => InsertReady(c, h, th, locks) && th.level <= th.top
        && InsertValid(h, th.preds, th.succs, th.level) && PredUnmarked(h, th)
    case Alloc => InsertReady(c, h, th, locks) && InsertValid(h, th.preds, th.succs, th.top + 1)
    case Link => Building(c, h, t, th) && th.level <= th.top
    case SetLinked => Building(c, h, t, th) && th.level == th.top + 1
    case AddSize => locks != {} && th.call.Put? && th.top < c.maxLevel
    case RaiseLoad => locks != {} && th.call.Put? && th.top < c.maxLevel
    case RaiseCas => locks != {} && th.call.Put? && th.top < c.maxLevel
    case VictimLinked => VictimReady(c, h, th, locks) && th.level == 0
    case VictimMarked => VictimReady(c, h, th, locks) && th.level == 0 && h[th.node].fullyLinked
    case DeletePred => VictimReady(c, h, th, locks) && th.level <= th.top
        && VictimValid(h, th.node, th.call.key, th.preds, th.level)
    case DeleteForward => VictimReady(c, h, th, locks) && th.level <= th.top
        && VictimValid(h, th.node, th.call.key, th.preds, th.level) && PredUnmarked(h, th)
    case Mark => VictimReady(c, h, th, locks) && VictimValid(h, th.node, th.call.key, th.preds, th.top + 1)
    case UnlinkLoad => Unlinking(c, h, t, th)
    case UnlinkStore => Unlinking(c, h, t, th) && HasLevel(h, th.node, th.level - 1)
                        && th.next == h[th.node].forward[th.level - 1]
    case SubSize => locks != {} && th.call.Delete?
    case Recompute => locks != {} && th.call.Delete? && 1 <= th.level <= c.maxLevel
    case StoreLevel => locks != {} && th.call.Delete? && 1 <= th.level <= c.maxLevel
    case WalkMarkedAgain => Looking(c, h, th) && locks == {th.cur}
    case WalkLinkedAgain => Looking(c, h, th) && locks == {th.cur} && !h[th.cur].marked
    case WalkRead => Looking(c, h, th) && locks == {th.cur} && Live(h, th.cur)
    case _ => false
  }

  ghost predicate AcquireOk(h: Heap, th: Thread) {
    && th.taken < |th.targets| && Ascending(th.targets)
    && (forall i :: 0 <= i < |th.targets| ==> th.targets[i] in h)
    && th.locks == Elems(th.targets[..th.taken])
    && th.cont in {CheckMarked, InsertPred, VictimLinked, WalkMarkedAgain}
    && (th.cont == InsertPred ==> th.level == 0)
  }

  /** What a thread knows at its program counter. The equation keeps the verifier
      from spelling out all cases wherever this is to be concluded. */
  ghost predicate PcOk(c: Config, h: Heap, t: Tid, th: Thread) { KnownAt(c, h, t, th) == true }

  ghost predicate KnownAt(c: Config, h: Heap, t: Tid, th: Thread) {
    match th.pc
    case Idle => th.locks == {}
    case Done => th.locks == {}
    case ReadLevel => th.locks == {} && Searching(th)
    case Descend => th.locks == {} && Searching(th) && Found(c, h, th) && 1 <= th.level <= c.maxLevel
                    && (th.found.Some? ==> th.level <= th.found.value)
                    && Reached(h, th.pred, th.level - 1) && Before(c, h, th.pred, th.call.key)
    case Decide => th.locks == {} && Searching(th) && Found(c, h, th)
                   && Reached(h, th.pred, 0) && Before(c, h, th.pred, th.call.key)
    case Acquire => AcquireOk(h, th) && PhaseOk(c, h, t, th, th.cont, Elems(th.targets))
    case Release => && th.locks != {} && th.cont in {ReadLevel, Done, WalkLoad}
                    && (th.cont == ReadLevel ==> Updating(th)) && (th.cont == WalkLoad ==> Walking(c, h, th))
    case WalkLoad => th.locks == {} && Walking(c, h, th)
    case WalkMarked => th.locks == {} && Looking(c, h, th)
    case WalkLinked => th.locks == {} && Looking(c, h, th)
    case _ => PhaseOk(c, h, t, th, th.pc, th.locks)
  }

  /** The mutexes a thread believes it holds are the ones it owns. */
  ghost predicate LocksMatch(h: Heap, t: Tid, th: Thread) {
    forall n :: n in th.locks <==> (n in h && h[n].owner == Some(t))
  }

  ghost predicate TransitPc(pc: Pc) { pc in {Link, SetLinked, UnlinkLoad, UnlinkStore} }

  /** A thread's node in transit is the one it is linking or unlinking right now. */
  ghost predicate TransitMine(c: Config, h: Heap, t: Tid, th: Thread) {
    forall n :: InTransit(c, h, n) && h[n].agent == Some(t) ==> TransitPc(th.pc) && n == th.node
  }

  ghost predicate ThreadOk(c: Config, h: Heap, t: Tid, th: Thread) {
    PcOk(c, h, t, th) && LocksMatch(h, t, th) && TransitMine(c, h, t, th)
        && (th.pc != Idle && !Updating(th) ==> AnswerOk(c, th.call, th.result, th.ret))
  }

  // ------------------------------------------------------------- stability

  lemma FindStable(c: Config, h: Heap, h': Heap, th: Thread)
    requires Found(c, h, th) && Evolves(h, h')
    ensures Found(c, h', th)
  {
    forall l: nat | l < |th.preds| ensures RecordOk(c, h', th.call.key, th.preds[l], th.succs[l], th.found.None?, l) {
      assert RecordOk(c, h, th.call.key, th.preds[l], th.succs[l], th.found.None?, l);
    }
  }

  lemma WalkStable(c: Config, h: Heap, h': Heap, th: Thread)
    requires Evolves(h, h')
    ensures Walking(c, h, th) ==> Walking(c, h', th)
    ensures Looking(c, h, th) ==> Looking(c, h', th)
  {
  }

  lemma PhaseStable(c: Config, h: Heap, h': Heap, t: Tid, th: Thread, pc: Pc, locks: set<Addr>)
    requires PhaseOk(c, h, t, th, pc, locks) && Rely(c, h, h', t)
    requires LocksMatch(h, t, th)
    requires locks == th.locks || pc in {CheckMarked, InsertPred, VictimLinked, WalkMarkedAgain}
    requires pc == InsertPred && locks != th.locks ==> th.level == 0
    ensures PhaseOk(c, h', t, th, pc, locks)
  {
    if pc in {InsertPred, InsertSucc, InsertForward, Alloc, Link, SetLinked} {
      InsertStable(c, h, h', t, th, pc, locks);
    } else if pc in {VictimLinked, VictimMarked, DeletePred, DeleteForward, Mark} {
      DeleteStable(c, h, h', t, th, pc, locks);
    } else if pc in {UnlinkLoad, UnlinkStore} {
      UnlinkStable(c, h, h', t, th, pc, locks);
    } else {
      hide Found, HeapInv, InsertReady, VictimReady, InsertValid, VictimValid, Building, Unlinking;
    }
  }

  lemma InsertStable(c: Config, h: Heap, h': Heap, t: Tid, th: Thread, pc: Pc, locks: set<Addr>)
    requires PhaseOk(c, h, t, th, pc, locks) && Rely(c, h, h', t)
    requires LocksMatch(h, t, th)
    requires locks == th.locks || pc in {CheckMarked, InsertPred, VictimLinked, WalkMarkedAgain}
    requires pc == InsertPred && locks != th.locks ==> th.level == 0
    requires pc in {InsertPred, InsertSucc, InsertForward, Alloc, Link, SetLinked}
    ensures PhaseOk(c, h', t, th, pc, locks)
  {
    hide Found, HeapInv;
    FindStable(c, h, h', th);
  }

  lemma DeleteStable(c: Config, h: Heap, h': Heap, t: Tid, th: Thread, pc: Pc, locks: set<Addr>)
    requires PhaseOk(c, h, t, th, pc, locks) && Rely(c, h, h', t)
    requires LocksMatch(h, t, th)
    requires locks == th.locks || pc in {CheckMarked, InsertPred, VictimLinked, WalkMarkedAgain}
    requires pc == InsertPred && locks != th.locks ==> th.level == 0
    requires pc in {VictimLinked, VictimMarked, DeletePred, DeleteForward, Mark}
    ensures PhaseOk(c, h', t, th, pc, locks)
  {
    hide Found, HeapInv, Unlinking, Building, InsertReady, Looking;
    FindStable(c, h, h', th);
  }

  lemma UnlinkStable(c: Config, h: Heap, h': Heap, t: Tid, th: Thread, pc: Pc, locks: set<Addr>)
    requires PhaseOk(c, h, t, th, pc, locks) && Rely(c, h, h', t)
    requires LocksMatch(h, t, th)
    requires locks == th.locks || pc in {CheckMarked, InsertPred, VictimLinked, WalkMarkedAgain}
    requires pc == InsertPred && locks != th.locks ==> th.level == 0
    requires pc in {UnlinkLoad, UnlinkStore}
    ensures PhaseOk(c, h', t, th, pc, locks)
  {
    hide Found, HeapInv, VictimValid, Building, InsertReady, Looking;
    FindStable(c, h, h', th);
  }

  /** A step of another thread keeps everything a thread knows. */
  lemma ThreadStable(c: Config, h: Heap, h': Heap, t: Tid, th: Thread)
    requires ThreadOk(c, h, t, th) && Rely(c, h, h', t)
    ensures ThreadOk(c, h', t, th)
  {
    hide HeapInv;
    assert PcOk(c, h', t, th) by {
      hide Found, WalkOk, CurOk, PhaseOk, TransitMine, AnswerOk;
      WalkStable(c, h, h', th);
      if Found(c, h, th) { FindStable(c, h, h', th); }
      if th.pc == Acquire {
        assert th.cont == InsertPred ==> th.level == 0;
        PhaseStable(c, h, h', t, th, th.cont, Elems(th.targets));
      } else if PhaseOk(c, h, t, th, th.pc, th.locks) {
        PhaseStable(c, h, h', t, th, th.pc, th.locks);
      }
    }
    assert LocksMatch(h', t, th) && TransitMine(c, h', t, th) by {
      hide PcOk, AnswerOk;
    }
  }
}
