/**
 * When a search can be overtaken.
 *
 * A search ends at a node whose next pointer does not lead below its key. Only the
 * linking of a smaller key at the bottom level can change that before the pointer is
 * loaded again. So a Get is exact, and a Scan stays in its range, unless a smaller key
 * is linked during the call.
 */
module SkipListRanges {
  import opened Wrappers
  import opened Bytes
  import opened SkipListMachine
  import opened SkipListHeap
  import opened SkipListThreads
  import opened SkipListHistory
  import opened SkipListSafety
  import opened SkipListCalls
  import opened SkipListTheorems
  import opened SkipListReaders

  // ---------------------------------------------------------- smaller keys linked

  /** Between the two heaps a node below the key has been linked at the bottom level. */
  ghost predicate LinksBelow(c: Config, h: Heap, h': Heap, key: Bytes) {
    exists n :: InLevel(h', n, 0) && !InLevel(h, n, 0) && c.less(h'[n].key, key)
  }

  ghost predicate LinksAfter(c: Config, past: seq<Heap>, j: nat, key: Bytes) {
    j + 1 < |past| && LinksBelow(c, past[j], past[j + 1], key)
  }

  ghost predicate LinkedSince(c: Config, past: seq<Heap>, began: nat, key: Bytes) {
    exists j :: began <= j && LinksAfter(c, past, j, key)
  }

  lemma LinkedLater(c: Config, past: seq<Heap>, began: nat, h': Heap, key: Bytes)
    requires began < |past|
    ensures LinkedSince(c, past, began, key) ==> LinkedSince(c, past + [h'], began, key)
    ensures LinksBelow(c, past[|past| - 1], h', key) ==> LinkedSince(c, past + [h'], began, key)
  {
    hide LinksBelow;
    var past' := past + [h'];
    if LinkedSince(c, past, began, key) {
      var j :| began <= j && LinksAfter(c, past, j, key);
      assert past'[j] == past[j] && past'[j + 1] == past[j + 1];
      assert LinksAfter(c, past', j, key);
    }
    if LinksBelow(c, past[|past| - 1], h', key) { assert LinksAfter(c, past', |past| - 1, key); }
  }

  /** The next pointer of `n` does not lead below the key. */
  ghost predicate AtOrPast(c: Config, h: Heap, n: Addr, key: Bytes) {
    HasLevel(h, n, 0) ==>
      var f := h[n].forward[0];
      f == NULL || (f in h && !c.less(h[f].key, key))
  }

  /** Only a link of a smaller key turns the pointer of a node met by a search below the key. */
  lemma StillPast(c: Config, h: Heap, h': Heap, n: Addr, key: Bytes)
    requires ValidConfig(c) && HeapInv(c, h) && HeapInv(c, h') && Evolves(h, h')
    requires Reached(h, n, 0) && AtOrPast(c, h, n, key)
    ensures AtOrPast(c, h', n, key) || LinksBelow(c, h, h', key)
  {
    hide HeapInv;
    NodeAt(c, h, n);
    if !h[n].marked && HasLevel(h', n, 0) {
      assert InLevel(h, n, 0) && InLevel(h', n, 0);
      EdgeAt(c, h', n, 0);
      var f := h'[n].forward[0];
      if InLevel(h, f, 0) { NextAt(c, h, n, f, 0); }
    }
  }

  // ---------------------------------------------------------------- what a reader knows

  ghost predicate NoneBelow(c: Config, result: seq<(Bytes, Bytes)>, key: Bytes) {
    forall i :: 0 <= i < |result| ==> !c.less(result[i].0, key)
  }

  /** A Get or Scan that no smaller key has overtaken. */
  ghost predicate Ranged(c: Config, h: Heap, th: Thread) {
    && NoneBelow(c, th.result, th.call.key)
    && (th.pc == Decide || AtPred(th) ==> AtOrPast(c, h, th.pred, th.call.key))
    && (AtCur(th) ==> th.cur in h && th.cur != c.head && !c.less(h[th.cur].key, th.call.key))
    && (AtEnd(th) && th.call.Get? ==> th.cur == NULL || (th.cur in h && !c.less(h[th.cur].key, th.call.key)))
  }

  ghost predicate CallRanged(c: Config, h: Heap, past: seq<Heap>, th: Thread) {
    th.pc != Idle && (th.call.Get? || th.call.Scan?) ==>
      && (LinkedSince(c, past, th.began, th.call.key) || Ranged(c, h, th))
      && (AtEnd(th) && th.call.Get? && th.ret ==> th.cur in h && h[th.cur].key == th.call.key)
  }

  /** The predecessor of a reader was listed at the bottom level. */
  lemma PredReached(c: Config, h: Heap, t: Tid, th: Thread)
    requires ThreadOk(c, h, t, th) && KindOk(th) && (th.call.Get? || th.call.Scan?)
    ensures th.pc == Decide || AtPred(th) ==> Reached(h, th.pred, 0)
  {
    hide PhaseOk, Found, Before, Reached, LocksMatch, TransitMine, AnswerOk;
  }

  lemma KeyStays(h: Heap, h': Heap, n: Addr)
    requires Evolves(h, h')
    ensures n in h ==> n in h' && h'[n].key == h[n].key
  {
  }

  /** The heap moves on. */
  lemma RangedLater(c: Config, h: Heap, h': Heap, past: seq<Heap>, t: Tid, th: Thread)
    requires ValidConfig(c) && HeapInv(c, h) && HeapInv(c, h') && Evolves(h, h')
    requires ThreadOk(c, h, t, th) && KindOk(th)
    requires th.pc != Idle ==> th.began < |past| && past[|past| - 1] == h
    requires CallRanged(c, h, past, th)
    ensures CallRanged(c, h', past + [h'], th)
  {
    hide HeapInv, ThreadOk, KindOk, LinksBelow, LinkedSince, AtOrPast, Reached, NoneBelow, AtPred, AtCur, AtEnd;
    if th.pc != Idle && (th.call.Get? || th.call.Scan?) {
      LinkedLater(c, past, th.began, h', th.call.key);
      PredReached(c, h, t, th);
      KeyStays(h, h', th.cur);
      if th.pc == Decide || AtPred(th) {
        if AtOrPast(c, h, th.pred, th.call.key) { StillPast(c, h, h', th.pred, th.call.key); }
      }
    }
  }

  // ------------------------------------------------------------- the steps of a reader

  lemma SameRanged(c: Config, h: Heap, past: seq<Heap>, th: Thread, th': Thread)
    requires CallRanged(c, h, past, th) && th.pc != Idle
    requires th'.call == th.call && th'.began == th.began && th'.pred == th.pred && th'.cur == th.cur
    requires th'.result == th.result && th'.ret == th.ret && th'.pc != Decide
    requires (AtPred(th') ==> AtPred(th) || th.pc == Decide) && (AtCur(th') ==> AtCur(th)) && (AtEnd(th') ==> AtEnd(th))
    ensures CallRanged(c, h, past, th')
  {
    hide LinkedSince, NoneBelow, AtOrPast;
  }

  /** A search without an answer yet, that has not come to its end. */
  lemma SearchRanged(c: Config, h: Heap, past: seq<Heap>, th': Thread)
    requires th'.pc in {ReadLevel, Descend, Decide} && th'.result == []
    requires th'.pc == Decide ==> AtOrPast(c, h, th'.pred, th'.call.key)
    ensures CallRanged(c, h, past, th')
  {
    hide LinkedSince, AtOrPast;
  }

  /** The reader loads the next node of the bottom level. */
  lemma LoadRanged(c: Config, h: Heap, past: seq<Heap>, th: Thread, th': Thread)
    requires ValidConfig(c) && CallRanged(c, h, past, th) && th.pc == WalkLoad && HasLevel(h, th.pred, 0)
    requires th.call.Get? ==> !th.ret
    requires var cur := h[th.pred].forward[0];
             && (cur == NULL || (cur in h && cur != c.head))
             && var stop := cur == NULL || (th.call.Get? && !KeysEqual(c, h[cur].key, th.call.key))
                            || (th.call.Scan? && c.less(th.call.end, h[cur].key));
                th' == th.(pc := if stop then Done else WalkMarked, cur := cur)
    ensures CallRanged(c, h, past, th')
  {
    hide LinkedSince, NoneBelow;
  }

  /** The reader passes over its node. */
  lemma SkipRanged(c: Config, h: Heap, past: seq<Heap>, th: Thread, th': Thread)
    requires ValidConfig(c) && HeapInv(c, h) && CallRanged(c, h, past, th) && AtCur(th) && th.cur in h
    requires th.call.Get? ==> !th.ret
    requires th' == Onward(th) || th' == ReleaseOnward(th)
    ensures CallRanged(c, h, past, th')
  {
    hide HeapInv, LinkedSince, NoneBelow;
    AbovePast(c, h, th.cur, th.call.key);
  }

  /** The reader collects its node. */
  lemma ReadRanged(c: Config, h: Heap, past: seq<Heap>, th: Thread, th': Thread, value: Bytes)
    requires ValidConfig(c) && HeapInv(c, h) && CallRanged(c, h, past, th) && AtCur(th) && th.cur in h
    requires th.call.Get? ==> h[th.cur].key == th.call.key
    requires th' == ReleaseOnward(th).(ret := true, result := th.result + [(h[th.cur].key, value)])
    ensures CallRanged(c, h, past, th')
  {
    hide HeapInv, LinkedSince, AtOrPast;
    AbovePast(c, h, th.cur, th.call.key);
  }

  /** The next pointer of a node that is not below the key leads further up. */
  lemma AbovePast(c: Config, h: Heap, n: Addr, key: Bytes)
    requires ValidConfig(c) && HeapInv(c, h) && n in h
    ensures n != c.head && !c.less(h[n].key, key) ==> AtOrPast(c, h, n, key)
  {
    hide HeapInv;
    if HasLevel(h, n, 0) { EdgeAt(c, h, n, 0); }
  }

  // --------------------------------------------------------------------- all threads

  /** The steps of the search. */
  lemma RangedSearch(c: Config, s: State, t: Tid, ch: Choice, s': State)
    requires Core(c, s) && Step(c, s, t, ch) == Some(s') && t in s.threads && t in s'.threads
    requires s.threads[t].pc in {ReadLevel, Descend, Decide} && (s.threads[t].call.Get? || s.threads[t].call.Scan?)
    requires CallRanged(c, s'.heap, s'.past, s.threads[t])
    ensures CallRanged(c, s'.heap, s'.past, s'.threads[t])
  {
    hide HeapInv, AgentsKnown, CallRanged, Found, LocksMatch, TransitMine, AnswerOk, Before, Reached;
    var th, th' := s.threads[t], s'.threads[t];
    assert ThreadOk(c, s.heap, t, th);
    assert Searching(th);
    hide ThreadsOk, PcOk;
    if th.pc == ReadLevel {
      assert StartDescent(c, s, t, th) == Some(s');
      hide Step;
      SearchRanged(c, s'.heap, s'.past, th');
    } else if th.pc == Descend {
      assert DescendOnce(c, s, t, th) == Some(s');
      hide Step;
      SearchRanged(c, s'.heap, s'.past, th');
    } else {
      assert DecideNext(c, s, t, th, ch) == Some(s');
      hide Step;
      SameRanged(c, s'.heap, s'.past, th, th');
    }
  }

  /** The next load along the bottom level. */
  lemma RangedLoad(c: Config, s: State, t: Tid, ch: Choice, s': State)
    requires ValidConfig(c) && HeapInv(c, s.heap) && Step(c, s, t, ch) == Some(s') && t in s.threads && t in s'.threads
    requires s.threads[t].pc == WalkLoad && (s.threads[t].call.Get? || s.threads[t].call.Scan?)
    requires Walking(c, s.heap, s.threads[t]) && CallRanged(c, s'.heap, s'.past, s.threads[t])
    ensures CallRanged(c, s'.heap, s'.past, s'.threads[t])
  {
    hide HeapInv, CallRanged;
    var th := s.threads[t];
    assert StepWalkLoad(c, s, t, th) == Some(s');
    hide Step;
    EdgeAt(c, s.heap, th.pred, 0);
    LoadRanged(c, s'.heap, s'.past, th, s'.threads[t]);
  }

  /** The first look at the node. */
  lemma RangedLook(c: Config, s: State, t: Tid, ch: Choice, s': State)
    requires ValidConfig(c) && HeapInv(c, s'.heap) && Step(c, s, t, ch) == Some(s') && t in s.threads && t in s'.threads
    requires s.threads[t].pc in {WalkMarked, WalkLinked} && (s.threads[t].call.Get? || s.threads[t].call.Scan?)
    requires Looking(c, s.heap, s.threads[t]) && CallRanged(c, s'.heap, s'.past, s.threads[t])
    ensures CallRanged(c, s'.heap, s'.past, s'.threads[t])
  {
    hide HeapInv, CallRanged;
    var th, th' := s.threads[t], s'.threads[t];
    if th.pc == WalkMarked {
      assert StepWalkMarked(s, t, th) == Some(s');
      hide Step;
      if s.heap[th.cur].marked {
        SkipRanged(c, s'.heap, s'.past, th, th');
      } else {
        SameRanged(c, s'.heap, s'.past, th, th');
      }
    } else {
      assert StepWalkLinked(s, t, th) == Some(s');
      hide Step;
      if s.heap[th.cur].fullyLinked {
        SameRanged(c, s'.heap, s'.past, th, th');
      } else {
        SkipRanged(c, s'.heap, s'.past, th, th');
      }
    }
  }

  lemma WalkingAt(c: Config, h: Heap, t: Tid, th: Thread)
    requires ThreadOk(c, h, t, th) && th.pc == WalkLoad
    ensures Walking(c, h, th)
  {
    hide Found, Before, Reached, LocksMatch, TransitMine, AnswerOk, WalkOk;
  }

  lemma LookingAt(c: Config, h: Heap, t: Tid, th: Thread)
    requires ThreadOk(c, h, t, th) && th.pc in {WalkMarked, WalkLinked, WalkMarkedAgain, WalkLinkedAgain, WalkRead}
    ensures Looking(c, h, th)
  {
    hide Found, Before, Reached, LocksMatch, TransitMine, AnswerOk, CurOk;
  }

  /** The steps under the mutex of the node. */
  lemma RangedRead(c: Config, s: State, t: Tid, ch: Choice, s': State)
    requires ValidConfig(c) && HeapInv(c, s'.heap) && Step(c, s, t, ch) == Some(s') && t in s.threads && t in s'.threads
    requires s.threads[t].pc in {WalkMarkedAgain, WalkLinkedAgain, WalkRead}
    requires s.threads[t].call.Get? || s.threads[t].call.Scan?
    requires Looking(c, s.heap, s.threads[t]) && CallRanged(c, s'.heap, s'.past, s.threads[t])
    ensures CallRanged(c, s'.heap, s'.past, s'.threads[t])
  {
    hide HeapInv, CallRanged, Invoke, DescendOnce, DecideNext, StepAlloc, StepLink, StepMark, StepUnlinkStore;
    var th, th' := s.threads[t], s'.threads[t];
    if th.pc == WalkMarkedAgain {
      assert StepWalkMarkedAgain(s, t, th) == Some(s');
      hide Step;
      if s.heap[th.cur].marked {
        SkipRanged(c, s'.heap, s'.past, th, th');
      } else {
        SameRanged(c, s'.heap, s'.past, th, th');
      }
    } else if th.pc == WalkLinkedAgain {
      assert StepWalkLinkedAgain(s, t, th) == Some(s');
      hide Step;
      if s.heap[th.cur].fullyLinked {
        SameRanged(c, s'.heap, s'.past, th, th');
      } else {
        SkipRanged(c, s'.heap, s'.past, th, th');
      }
    } else {
      assert StepWalkRead(s, t, th) == Some(s');
      hide Step;
      ReadRanged(c, s'.heap, s'.past, th, th', s.heap[th.cur].value);
    }
  }

  /** Locking, unlocking and returning. */
  lemma RangedLocks(c: Config, s: State, t: Tid, ch: Choice, s': State)
    requires Step(c, s, t, ch) == Some(s') && t in s.threads && t in s'.threads && KindOk(s.threads[t])
    requires s.threads[t].pc in {Acquire, Release, Done} && Reader(s.threads[t].call)
    requires CallRanged(c, s'.heap, s'.past, s.threads[t])
    ensures CallRanged(c, s'.heap, s'.past, s'.threads[t])
  {
    hide CallRanged, PutPcs, DeletePcs, ReadPcs;
    var th, th' := s.threads[t], s'.threads[t];
    if th.pc == Acquire {
      assert AcquireNext(s, t, th) == Some(s');
      hide Step;
      SameRanged(c, s'.heap, s'.past, th, th');
    } else if th.pc == Release {
      assert ReleaseOne(s, t, th, ch) == Some(s');
      hide Step;
      SameRanged(c, s'.heap, s'.past, th, th');
    } else {
      ReturnIdles(c, s, t, ch, s');
      NotRanged(c, s'.heap, s'.past, th');
    }
  }

  lemma NotRanged(c: Config, h: Heap, past: seq<Heap>, th: Thread)
    requires th.pc == Idle || !(th.call.Get? || th.call.Scan?)
    ensures CallRanged(c, h, past, th)
  {
  }

  lemma RangedInvoke(c: Config, s: State, t: Tid, ch: Choice, s': State)
    requires Step(c, s, t, ch) == Some(s') && t in s.threads && t in s'.threads && s.threads[t].pc == Idle
    ensures CallRanged(c, s'.heap, s'.past, s'.threads[t])
  {
    hide LinkedSince, AtOrPast;
    assert Invoke(c, s, t, s.threads[t], ch) == Some(s');
    hide Step;
  }

  lemma RangedActor(c: Config, s: State, t: Tid, ch: Choice, s': State)
    requires Core(c, s) && HeapInv(c, s'.heap) && Evolves(s.heap, s'.heap) && Step(c, s, t, ch) == Some(s')
    requires t in s.threads && t in s'.threads && s'.past == s.past + [s'.heap]
    requires CallPast(c, s, t) && CallLogged(s, t) && KindOk(s.threads[t])
    requires CallRanged(c, s.heap, s.past, s.threads[t])
    ensures CallRanged(c, s'.heap, s'.past, s'.threads[t])
  {
    hide HeapInv, Hindsight, Evolves, Step, CallRanged, AgentsKnown, ThreadsOk, CallLogged, KindOk, ThreadOk;
    var th := s.threads[t];
    if th.pc == Idle {
      RangedInvoke(c, s, t, ch, s');
    } else {
      ThreadAt(c, s, t);
      BeganIn(c, s, t);
      RangedLater(c, s.heap, s'.heap, s.past, t, th);
      SameKind(c, s, t, ch, s');
      if !(th.call.Get? || th.call.Scan?) {
        NotRanged(c, s'.heap, s'.past, s'.threads[t]);
      } else if th.pc in {ReadLevel, Descend, Decide} {
        RangedSearch(c, s, t, ch, s');
      } else if th.pc == WalkLoad {
        WalkingAt(c, s.heap, t, th);
        RangedLoad(c, s, t, ch, s');
      } else if th.pc in {WalkMarked, WalkLinked} {
        LookingAt(c, s.heap, t, th);
        RangedLook(c, s, t, ch, s');
      } else if th.pc in {WalkMarkedAgain, WalkLinkedAgain, WalkRead} {
        LookingAt(c, s.heap, t, th);
        RangedRead(c, s, t, ch, s');
      } else {
        ReaderPcs(th);
        RangedLocks(c, s, t, ch, s');
      }
    }
  }

  lemma ThreadAt(c: Config, s: State, t: Tid)
    requires Core(c, s) && t in s.threads
    ensures ThreadOk(c, s.heap, t, s.threads[t])
  {
    hide HeapInv, AgentsKnown, ThreadOk;
  }

  lemma BeganIn(c: Config, s: State, t: Tid)
    requires CallPast(c, s, t) && s.threads[t].pc != Idle
    ensures s.threads[t].began < |s.past| && s.past[|s.past| - 1] == s.heap
  {
    PastOf(c, s, t);
    hide SeenReached, SeenClosed, GapsAbsent;
  }

  ghost predicate AllRanged(c: Config, s: State) {
    forall t :: t in s.threads ==> CallRanged(c, s.heap, s.past, s.threads[t])
  }

  lemma RangedStep(c: Config, s: State, t: Tid, ch: Choice, s': State)
    requires Inv(c, s) && Step(c, s, t, ch) == Some(s') && AllRanged(c, s)
    ensures AllRanged(c, s')
  {
    hide HeapInv, ThreadsOk, ThreadOk, AgentsKnown, LogOk, SizeOk, CallLogged, CallPast, CallRanged, Step, KindOk,
        Evolves;
    StepActs(c, s, t, ch);
    KindAt(c, s, t);
    StepFrame(c, s, t, ch, s');
    CoreStep(c, s, t, ch, s');
    forall u | u in s'.threads ensures CallRanged(c, s'.heap, s'.past, s'.threads[u]) {
      assert u in s.threads && CallPast(c, s, u) && CallRanged(c, s.heap, s.past, s.threads[u]);
      if u == t {
        RangedActor(c, s, t, ch, s');
      } else {
        ThreadAt(c, s, u);
        KindAt(c, s, u);
        if s.threads[u].pc != Idle { BeganIn(c, s, u); }
        RangedLater(c, s.heap, s'.heap, s.past, u, s.threads[u]);
      }
    }
  }

  lemma RangedIdle(c: Config, s: State)
    requires AllIdle(s)
    ensures AllRanged(c, s)
  {
  }

  lemma {:induction false} RangedReachable(c: Config, run: seq<State>, i: nat)
    requires ValidConfig(c) && IsRun(c, run) && i < |run|
    ensures AllRanged(c, run[i])
  {
    hide Inv, Step, AllRanged, Init;
    if i == 0 {
      assert AllIdle(run[0]) by { InitIdle(c, run[0]); }
      RangedIdle(c, run[0]);
    } else {
      Reachable(c, run, i - 1);
      RangedReachable(c, run, i - 1);
      var s, s' := run[i - 1], run[i];
      assert Next(c, s, s');
      if t, ch :| Step(c, s, t, ch) == Some(s') {
        RangedStep(c, s, t, ch, s');
      } else {
        RangedIdle(c, s');
      }
    }
  }

  // ------------------------------------------------------------------------- results

  /** A key below `key` is linked at the bottom level between states `from` and `i`. */
  ghost predicate LinkedDuring(c: Config, run: seq<State>, from: nat, i: nat, key: Bytes) {
    exists j :: from <= j < i && LinkStep(c, run, j, key)
  }

  ghost predicate LinkStep(c: Config, run: seq<State>, j: nat, key: Bytes) {
    j + 1 < |run| && LinksBelow(c, run[j].heap, run[j + 1].heap, key)
  }

  lemma SinceInRun(c: Config, run: seq<State>, i: nat, began: nat, key: Bytes)
    requires i < |run| && |run[i].past| == i + 1 && forall j :: 0 <= j <= i ==> run[i].past[j] == run[j].heap
    requires LinkedSince(c, run[i].past, began, key)
    ensures LinkedDuring(c, run, began, i, key)
  {
    hide LinksBelow;
    var j :| began <= j && LinksAfter(c, run[i].past, j, key);
    assert run[i].past[j] == run[j].heap && run[i].past[j + 1] == run[j + 1].heap;
    assert LinkStep(c, run, j, key);
  }

  /** Thread `t` is about to link the new node of a Put of a smaller key at the bottom level. */
  ghost predicate LinkingBelow(c: Config, s: State, t: Tid, key: Bytes) {
    t in s.threads
    && var th := s.threads[t];
       th.pc == Link && th.level == 0 && th.call.Put? && c.less(th.call.key, key)
  }

  /** No step raises the number of linked levels of a node but those at Link. */
  ghost predicate LinksNone(h: Heap, h': Heap) {
    forall n :: InLevel(h', n, 0) ==> InLevel(h, n, 0)
  }

  lemma OthersLinkNone(c: Config, s: State, t: Tid, ch: Choice, s': State)
    requires Core(c, s) && Step(c, s, t, ch) == Some(s') && t in s.threads && s.threads[t].pc != Link
    ensures LinksNone(s.heap, s'.heap)
  {
    hide Step, HeapInv, ThreadsOk, AgentsKnown, LinksNone;
    if s.threads[t].pc in {WriteValue, SetLinked, Mark} {
      UpdatesLinkNone(c, s, t, ch, s');
    } else if s.threads[t].pc in {Acquire, Release, Alloc} {
      StoresLinkNone(c, s, t, ch, s');
    } else if s.threads[t].pc == UnlinkStore {
      UnlinkLinksNone(c, s, t, ch, s');
    } else {
      LocalSteps(c, s, t, ch, s');
      assert LinksNone(s.heap, s'.heap) by { SameLinksNone(s.heap); }
    }
  }

  lemma UpdatesLinkNone(c: Config, s: State, t: Tid, ch: Choice, s': State)
    requires Step(c, s, t, ch) == Some(s') && t in s.threads && s.threads[t].pc in {WriteValue, SetLinked, Mark}
    ensures LinksNone(s.heap, s'.heap)
  {
    var th := s.threads[t];
    match th.pc {
      case WriteValue => assert StepWriteValue(s, t, th) == Some(s');
      case SetLinked => assert StepSetLinked(s, t, th) == Some(s');
      case Mark => assert StepMark(s, t, th) == Some(s');
    }
    hide Step;
  }

  lemma StoresLinkNone(c: Config, s: State, t: Tid, ch: Choice, s': State)
    requires Step(c, s, t, ch) == Some(s') && t in s.threads && s.threads[t].pc in {Acquire, Release, Alloc}
    ensures LinksNone(s.heap, s'.heap)
  {
    var th := s.threads[t];
    match th.pc {
      case Acquire => assert AcquireNext(s, t, th) == Some(s');
      case Release => assert ReleaseOne(s, t, th, ch) == Some(s');
      case Alloc => assert StepAlloc(s, t, th, ch) == Some(s');
    }
    hide Step;
  }

  lemma SameLinksNone(h: Heap)
    ensures LinksNone(h, h)
  {
  }

  lemma UnlinkLinksNone(c: Config, s: State, t: Tid, ch: Choice, s': State)
    requires Core(c, s) && Step(c, s, t, ch) == Some(s') && t in s.threads && s.threads[t].pc == UnlinkStore
    ensures LinksNone(s.heap, s'.heap)
  {
    hide HeapInv, AgentsKnown, LocksMatch, TransitMine, AnswerOk, Found;
    var th := s.threads[t];
    assert ThreadOk(c, s.heap, t, th);
    hide ThreadsOk;
    assert Unlinking(c, s.heap, t, th);
    hide PcOk;
    assert StepUnlinkStore(s, t, th) == Some(s');
    hide Step;
  }

  lemma LinkLinks(c: Config, s: State, t: Tid, ch: Choice, s': State, key: Bytes)
    requires Core(c, s) && Step(c, s, t, ch) == Some(s') && t in s.threads && s.threads[t].pc == Link
    requires LinksBelow(c, s.heap, s'.heap, key)
    ensures LinkingBelow(c, s, t, key)
  {
    hide HeapInv, AgentsKnown, LocksMatch, TransitMine, AnswerOk, Found;
    var th := s.threads[t];
    assert ThreadOk(c, s.heap, t, th);
    hide ThreadsOk;
    assert Building(c, s.heap, t, th);
    hide PcOk;
    assert StepLink(s, t, th) == Some(s');
    hide Step;
    var n :| InLevel(s'.heap, n, 0) && !InLevel(s.heap, n, 0) && c.less(s'.heap[n].key, key);
    StoreLinks(s.heap, th.preds[th.level], th.level, th.node, th.node, th.level + 1, n);
  }

  lemma StoreLinks(h: Heap, g: Addr, l: nat, target: Addr, node: Addr, linked: nat, n: Addr)
    requires HasLevel(h, g, l) && node in h
    ensures node in SetForward(h, g, l, target)
    ensures var h' := SetLinkedLevels(SetForward(h, g, l, target), node, linked);
            InLevel(h', n, 0) && !InLevel(h, n, 0) ==> n == node && h'[n].key == h[n].key
  {
  }

  /** A smaller key is linked by the step of a Put that links its new node. */
  lemma LinksArePuts(c: Config, run: seq<State>, j: nat, key: Bytes) returns (t: Tid)
    requires ValidConfig(c) && IsRun(c, run) && LinkStep(c, run, j, key)
    ensures LinkingBelow(c, run[j], t, key)
  {
    hide HeapInv, ThreadsOk, AgentsKnown, LogOk, SizeOk, CallLogged, CallPast, Step, Init, LinkingBelow;
    Reachable(c, run, j);
    var s, s' := run[j], run[j + 1];
    assert Next(c, s, s');
    if u, ch :| Step(c, s, u, ch) == Some(s') {
      StepActs(c, s, u, ch);
      if s.threads[u].pc == Link {
        LinkLinks(c, s, u, ch, s', key);
        t := u;
      } else {
        OthersLinkNone(c, s, u, ch, s');
        assert false;
      }
    } else {
      HeadAt(c, s.heap);
      assert false;
    }
  }

  /**
   * A Get whose key is in the map throughout the call answers false if and only if it
   * was overtaken: the node it loads after its search lies below the key. It is
   * overtaken only if a smaller key was linked at the bottom level during the call.
   */
  lemma GetExact(c: Config, run: seq<State>, i: nat, t: Tid)
    requires ValidConfig(c) && IsRun(c, run) && i < |run| && t in run[i].threads && run[i].threads[t].pc == Done
    requires run[i].threads[t].call.Get?
    ensures var th := run[i].threads[t];
            && (PresentThroughout(run, th.began, i, th.call.key) ==> (!th.ret <==> Overtaken(c, run[i].heap, th)))
            && (Overtaken(c, run[i].heap, th) ==> LinkedDuring(c, run, th.began, i, th.call.key))
  {
    hide IsRun, Inv, PresentThroughout, NoLiveKey, LinkedSince, LinkedDuring, AtOrPast, NoneBelow;
    var th := run[i].threads[t];
    RangedReachable(c, run, i);
    Reachable(c, run, i);
    NullFree(c, run[i]);
    assert CallRanged(c, run[i].heap, run[i].past, th);
    if LinkedSince(c, run[i].past, th.began, th.call.key) { SinceInRun(c, run, i, th.began, th.call.key); }
    if !th.ret && PresentThroughout(run, th.began, i, th.call.key) {
      GetMisses(c, run, i, t);
      AbsentNot(run, th.began, i, th.call.key);
    }
  }

  lemma NullFree(c: Config, s: State)
    requires Inv(c, s)
    ensures NULL !in s.heap && ValidConfig(c)
  {
    hide HeapInv, ThreadsOk, AgentsKnown, LogOk, SizeOk, CallLogged, CallPast;
    HeadAt(c, s.heap);
  }

  lemma AbsentNot(run: seq<State>, from: nat, i: nat, key: Bytes)
    requires PresentThroughout(run, from, i, key)
    ensures !exists j :: from <= j <= i && NoLiveKey(run[j].heap, key)
  {
    hide NoLiveKey;
  }

  /**
   * If no smaller key is linked at the bottom level during the call, a Get that answers
   * false ran while its key was absent at some moment of it, and a Scan answers no key
   * below its start.
   */
  lemma RangedExact(c: Config, run: seq<State>, i: nat, t: Tid)
    requires ValidConfig(c) && IsRun(c, run) && i < |run| && t in run[i].threads && run[i].threads[t].pc == Done
    requires !LinkedDuring(c, run, run[i].threads[t].began, i, run[i].threads[t].call.key)
    ensures var th := run[i].threads[t];
            && (th.call.Get? && !th.ret ==> exists j :: th.began <= j <= i && NoLiveKey(run[j].heap, th.call.key))
            && (th.call.Scan? ==> forall k :: 0 <= k < |th.result| ==> !c.less(th.result[k].0, th.call.key))
  {
    hide IsRun, Inv, NoLiveKey, LinkedSince, LinkedDuring, AtOrPast;
    var th := run[i].threads[t];
    RangedReachable(c, run, i);
    Reachable(c, run, i);
    NullFree(c, run[i]);
    assert CallRanged(c, run[i].heap, run[i].past, th);
    if LinkedSince(c, run[i].past, th.began, th.call.key) { SinceInRun(c, run, i, th.began, th.call.key); }
    if th.call.Get? && !th.ret { GetMisses(c, run, i, t); }
  }
}
