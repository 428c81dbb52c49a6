/** Threads never fault and never deadlock. */
module SkipListProgress {
  import opened Wrappers
  import opened SkipListMachine
  import opened SkipListHeap
  import opened SkipListThreads
  import opened SkipListSteps
  import opened SkipListSafety
  import opened SkipListCalls
  import opened SkipListTheorems

  ghost predicate CanStep(c: Config, s: State, t: Tid) {
    exists ch :: Step(c, s, t, ch).Some?
  }

  lemma FreshAddr(used: set<Addr>) returns (a: Addr)
    ensures a != NULL && a !in used
  {
    var bound := UpperBound(used);
    a := bound + 1;
  }

  lemma UpperBound(used: set<Addr>) returns (bound: Addr)
    ensures forall a :: a in used ==> a <= bound
  {
    if used == {} { return 0; }
    var x :| x in used;
    var rest := UpperBound(used - {x});
    bound := if rest < x then x else rest;
    forall a | a in used ensures a <= bound {
      if a != x { assert a in used - {x}; }
    }
  }

  /** A recorded predecessor has the level it was recorded for. */
  lemma RecordedLevel(c: Config, h: Heap, th: Thread, l: nat)
    requires HeapInv(c, h) && Found(c, h, th) && l < c.maxLevel
    ensures l < |th.preds| == |th.succs| && HasLevel(h, th.preds[l], l)
    ensures th.preds[l] != NULL && (th.succs[l] != NULL ==> th.succs[l] in h)
  {
    hide HeapInv;
    assert RecordOk(c, h, th.call.key, th.preds[l], th.succs[l], th.found.None?, l);
    NodeAt(c, h, th.preds[l]);
    HeadAt(c, h);
  }

  lemma CallsEnabled(c: Config, s: State, t: Tid, ch: Choice)
    requires Before'(c, s, t) && |s.past| > 0 && s.threads[t].pc in {Idle, ReadLevel, Done}
    ensures Step(c, s, t, ch).Some?
  {
    hide HeapInv, ThreadOk;
  }

  lemma DescendEnabled(c: Config, s: State, t: Tid, ch: Choice)
    requires Before'(c, s, t) && |s.past| > 0 && s.threads[t].pc in {Descend}
    ensures Step(c, s, t, ch).Some?
  {
    hide HeapInv, FindOk, TransitMine, AnswerOk, LocksMatch;
    var th := s.threads[t];
    NodeAt(c, s.heap, th.pred);
    EdgeAt(c, s.heap, th.pred, th.level - 1);
    RecordedLevel(c, s.heap, th, th.level - 1);
  }

  lemma ChecksEnabled(c: Config, s: State, t: Tid, ch: Choice)
    requires Before'(c, s, t) && |s.past| > 0
             && s.threads[t].pc in {CheckMarked, CheckLinked, WriteValue, VictimLinked, VictimMarked}
    ensures Step(c, s, t, ch).Some?
  {
    hide HeapInv, FindOk, CurOk, WalkOk, TransitMine, AnswerOk, InsertValid, VictimValid;
  }

  lemma InsertEnabled(c: Config, s: State, t: Tid, ch: Choice)
    requires Before'(c, s, t) && |s.past| > 0 && s.threads[t].pc in {InsertPred, InsertSucc, InsertForward}
    ensures Step(c, s, t, ch).Some?
  {
    hide HeapInv, FindOk, CurOk, WalkOk, TransitMine, AnswerOk, InsertValid, VictimValid, LocksMatch;
    RecordedLevel(c, s.heap, s.threads[t], s.threads[t].level);
  }

  lemma DeleteEnabled(c: Config, s: State, t: Tid, ch: Choice)
    requires Before'(c, s, t) && |s.past| > 0 && s.threads[t].pc in {DeletePred, DeleteForward}
    ensures Step(c, s, t, ch).Some?
  {
    hide HeapInv, FindOk, CurOk, WalkOk, TransitMine, AnswerOk, InsertValid, VictimValid, LocksMatch;
    RecordedLevel(c, s.heap, s.threads[t], s.threads[t].level);
  }

  lemma LinkEnabled(c: Config, s: State, t: Tid, ch: Choice)
    requires Before'(c, s, t) && |s.past| > 0 && s.threads[t].pc in {Link}
    ensures Step(c, s, t, ch).Some?
  {
    hide HeapInv, FindOk, CurOk, WalkOk, TransitMine, AnswerOk, LocksMatch;
    RecordedLevel(c, s.heap, s.threads[t], s.threads[t].level);
  }

  lemma MarkEnabled(c: Config, s: State, t: Tid, ch: Choice)
    requires Before'(c, s, t) && |s.past| > 0 && s.threads[t].pc in {SetLinked, Mark}
    ensures Step(c, s, t, ch).Some?
  {
    hide HeapInv, FindOk, CurOk, WalkOk, TransitMine, AnswerOk, LocksMatch, VictimValid;
    RecordedLevel(c, s.heap, s.threads[t], s.threads[t].top);
  }

  lemma UnlinkEnabled(c: Config, s: State, t: Tid, ch: Choice)
    requires Before'(c, s, t) && |s.past| > 0 && s.threads[t].pc in {UnlinkLoad, UnlinkStore}
    ensures Step(c, s, t, ch).Some?
  {
    hide HeapInv, FindOk, CurOk, WalkOk, TransitMine, AnswerOk, LocksMatch;
    RecordedLevel(c, s.heap, s.threads[t], s.threads[t].level - 1);
    NodeAt(c, s.heap, s.threads[t].node);
  }

  lemma CountersEnabled(c: Config, s: State, t: Tid, ch: Choice)
    requires Before'(c, s, t) && |s.past| > 0
             && s.threads[t].pc in {AddSize, RaiseLoad, RaiseCas, SubSize, Recompute, StoreLevel}
    ensures Step(c, s, t, ch).Some?
  {
    hide HeapInv, FindOk, CurOk, WalkOk, TransitMine, AnswerOk, LocksMatch;
    HeadAt(c, s.heap);
    NodeAt(c, s.heap, c.head);
  }

  lemma WalkEnabled(c: Config, s: State, t: Tid, ch: Choice)
    requires Before'(c, s, t) && |s.past| > 0 && s.threads[t].pc in {WalkLoad, WalkMarked, WalkLinked}
    ensures Step(c, s, t, ch).Some?
  {
    hide HeapInv, FindOk, TransitMine, AnswerOk, LocksMatch;
    var th := s.threads[t];
    if th.pc == WalkLoad {
      NodeAt(c, s.heap, th.pred);
      EdgeAt(c, s.heap, th.pred, 0);
    }
  }

  lemma ReadEnabled(c: Config, s: State, t: Tid, ch: Choice)
    requires Before'(c, s, t) && |s.past| > 0 && s.threads[t].pc in {WalkMarkedAgain, WalkLinkedAgain, WalkRead}
    ensures Step(c, s, t, ch).Some?
  {
    hide HeapInv, FindOk, TransitMine, AnswerOk, LocksMatch;
  }

  lemma DecideEnabled(c: Config, s: State, t: Tid, ch: Choice)
    requires Before'(c, s, t) && s.threads[t].pc == Decide && ch.level == 0
    ensures Step(c, s, t, ch).Some?
  {
    hide HeapInv, FindOk, TransitMine, AnswerOk, LocksMatch;
    var th := s.threads[t];
    FoundNodes(c, s.heap, th);
    if th.found.Some? { NodeAt(c, s.heap, th.succs[th.found.value]); }
  }

  lemma AllocEnabled(c: Config, s: State, t: Tid, ch: Choice)
    requires Before'(c, s, t) && s.threads[t].pc == Alloc && ch.addr != NULL && ch.addr !in s.heap
    ensures Step(c, s, t, ch).Some?
  {
    hide HeapInv, FindOk, TransitMine, AnswerOk, LocksMatch, InsertValid;
    RecordedLevel(c, s.heap, s.threads[t], s.threads[t].top);
  }

  lemma ReleaseEnabled(c: Config, s: State, t: Tid, ch: Choice)
    requires Before'(c, s, t) && s.threads[t].pc == Release && ch.addr in s.threads[t].locks
    ensures Step(c, s, t, ch).Some?
  {
    hide HeapInv, TransitMine, AnswerOk, WalkOk;
  }

  /** A thread that is not waiting for a mutex has an enabled step: it never follows a bad pointer. */
  lemma NeverStuck(c: Config, s: State, t: Tid)
    requires Inv(c, s) && t in s.threads && s.threads[t].pc != Acquire
    ensures CanStep(c, s, t)
  {
    hide Inv, Before', Step, PcOk;
    BeforeStep(c, s, t);
    InvPastNonempty(c, s);
    var unused := FreshAddr(s.heap.Keys);
    var ch := Choice(Snapshot([]), 0, unused, false);
    match s.threads[t].pc {
      case Idle | ReadLevel | Done => CallsEnabled(c, s, t, ch);
      case Descend => DescendEnabled(c, s, t, ch);
      case Decide => DecideEnabled(c, s, t, ch);
      case Release =>
        var held :| held in s.threads[t].locks;
        ReleaseEnabled(c, s, t, ch.(addr := held));
      case CheckMarked | CheckLinked | WriteValue | VictimLinked | VictimMarked => ChecksEnabled(c, s, t, ch);
      case InsertPred | InsertSucc | InsertForward => InsertEnabled(c, s, t, ch);
      case DeletePred | DeleteForward => DeleteEnabled(c, s, t, ch);
      case Alloc => AllocEnabled(c, s, t, ch);
      case Link => LinkEnabled(c, s, t, ch);
      case SetLinked | Mark => MarkEnabled(c, s, t, ch);
      case UnlinkLoad | UnlinkStore => UnlinkEnabled(c, s, t, ch);
      case AddSize | RaiseLoad | RaiseCas | SubSize | Recompute | StoreLevel => CountersEnabled(c, s, t, ch);
      case WalkLoad | WalkMarked | WalkLinked => WalkEnabled(c, s, t, ch);
      case WalkMarkedAgain | WalkLinkedAgain | WalkRead => ReadEnabled(c, s, t, ch);
    }
  }

  lemma BeforeStep(c: Config, s: State, t: Tid)
    requires Inv(c, s) && t in s.threads
    ensures Before'(c, s, t) && (s.threads[t].pc == Release ==> s.threads[t].locks != {})
  {
    hide HeapInv, AgentsKnown, LogOk, SizeOk, CallLogged, CallPast, PcOk, LocksMatch, TransitMine, AnswerOk;
    assert ThreadOk(c, s.heap, t, s.threads[t]);
    if s.threads[t].pc == Release { AtRelease(c, s.heap, t, s.threads[t]); }
  }

  lemma InvPastNonempty(c: Config, s: State)
    requires Inv(c, s)
    ensures |s.past| > 0
  {
    hide Core, LogOk, SizeOk, CallLogged, CallPast;
  }

  // ---------------------------------------------------------------- deadlock

  /** The mutex thread `t` is about to lock, if it is at a lock step. */
  function Wanted(th: Thread): Option<Addr> {
    if th.pc == Acquire && th.taken < |th.targets| then Some(th.targets[th.taken]) else None
  }

  /** `t` waits for a mutex that `u` holds. */
  ghost predicate WaitsFor(s: State, t: Tid, u: Tid) {
    && t in s.threads && u in s.threads
    && var n := Wanted(s.threads[t]);
       n.Some? && n.value in s.heap && s.heap[n.value].owner == Some(u)
  }

  /** Along waits-for, the wanted addresses strictly ascend, so the relation has no cycle. */
  lemma WaitsAscend(c: Config, s: State, t: Tid, u: Tid)
    requires Inv(c, s) && WaitsFor(s, t, u) && Wanted(s.threads[u]).Some?
    ensures Wanted(s.threads[t]).value < Wanted(s.threads[u]).value
  {
    hide HeapInv, AgentsKnown, LogOk, SizeOk, CallLogged, CallPast, PhaseOk, TransitMine, AnswerOk;
    var n := Wanted(s.threads[t]).value;
    var th := s.threads[u];
    assert ThreadOk(c, s.heap, u, th);
    assert n in th.locks;
    assert n in th.targets[..th.taken];
  }

  /** A finite chain of threads, each waiting for the next. */
  ghost predicate WaitChain(s: State, ts: seq<Tid>) {
    |ts| >= 1 && (|ts| == 1 || (WaitsFor(s, ts[0], ts[1]) && WaitChain(s, ts[1..])))
  }

  lemma {:induction false} ChainAscends(c: Config, s: State, ts: seq<Tid>)
    requires Inv(c, s) && WaitChain(s, ts) && |ts| >= 2
    ensures ts[0] in s.threads && Wanted(s.threads[ts[0]]).Some?
    ensures var last := ts[|ts| - 1];
            last in s.threads
            && (Wanted(s.threads[last]).Some? ==>
                  Wanted(s.threads[ts[0]]).value < Wanted(s.threads[last]).value)
  {
    hide Inv;
    if Wanted(s.threads[ts[1]]).Some? { WaitsAscend(c, s, ts[0], ts[1]); }
    if |ts| > 2 { ChainAscends(c, s, ts[1..]); }
  }

  /** In no reachable state does a thread wait, through any chain of others, for itself. */
  lemma NoWaitCycle(c: Config, run: seq<State>, i: nat, ts: seq<Tid>)
    requires ValidConfig(c) && IsRun(c, run) && i < |run| && |ts| >= 2 && WaitChain(run[i], ts)
    ensures ts[0] != ts[|ts| - 1]
  {
    hide IsRun, Inv, WaitChain;
    Reachable(c, run, i);
    ChainAscends(c, run[i], ts);
  }

  lemma Maximum(nodes: set<Addr>) returns (top: Addr)
    requires nodes != {}
    ensures top in nodes && forall n :: n in nodes ==> n <= top
  {
    top :| top in nodes;
    if nodes - {top} != {} {
      var first := top;
      var rest := Maximum(nodes - {top});
      if top < rest { top := rest; }
      forall n | n in nodes ensures n <= top {
        if n != first { assert n in nodes - {first}; }
      }
    } else {
      assert forall n :: n in nodes && n != top ==> n in nodes - {top};
    }
  }

  /** Whenever some node mutex is held, a thread that holds one can take its next step. */
  lemma SomeHolderCanStep(c: Config, run: seq<State>, i: nat)
    requires ValidConfig(c) && IsRun(c, run) && i < |run|
    requires exists n :: n in run[i].heap && run[i].heap[n].owner.Some?
    ensures exists t :: t in run[i].threads && run[i].threads[t].locks != {} && CanStep(c, run[i], t)
  {
    hide IsRun, Inv, CanStep;
    Reachable(c, run, i);
    var s := run[i];
    var held := set n | n in s.heap && s.heap[n].owner.Some?;
    var any :| any in s.heap && s.heap[any].owner.Some?;
    assert any in held;
    var n := Maximum(held);
    var t := s.heap[n].owner.value;
    HolderKnown(c, s, n, t);
    if s.threads[t].pc == Acquire {
      assert forall m :: m in s.heap && s.heap[m].owner.Some? ==> m in held;
      HighestCanLock(c, s, n, t);
    } else {
      NeverStuck(c, s, t);
    }
  }

  lemma HolderKnown(c: Config, s: State, n: Addr, t: Tid)
    requires Inv(c, s) && n in s.heap && s.heap[n].owner == Some(t)
    ensures t in s.threads && n in s.threads[t].locks
  {
    hide HeapInv, LogOk, SizeOk, CallLogged, CallPast, PcOk, TransitMine, AnswerOk;
    assert ThreadOk(c, s.heap, t, s.threads[t]);
  }

  lemma HighestCanLock(c: Config, s: State, n: Addr, t: Tid)
    requires Inv(c, s) && t in s.threads && n in s.threads[t].locks && s.threads[t].pc == Acquire
    requires forall m :: m in s.heap && s.heap[m].owner.Some? ==> m <= n
    ensures CanStep(c, s, t)
  {
    hide HeapInv, LogOk, SizeOk, CallLogged, CallPast, PhaseOk, TransitMine, AnswerOk;
    var th := s.threads[t];
    assert ThreadOk(c, s.heap, t, th);
    assert n in th.targets[..th.taken];
    assert n < th.targets[th.taken];
    assert s.heap[th.targets[th.taken]].owner == None;
    assert Step(c, s, t, Choice(Snapshot([]), 0, NULL, false)).Some?;
  }
}
