/**
 * What current_level_ means for progress.
 *
 * A search starts at current_level_ and takes the head as the predecessor at every
 * level from there up. An update that runs alone therefore succeeds in its first
 * attempt if and only if the head leads to the right place at those levels; where it
 * does not, a Delete of a node that tall tries again for ever.
 */
module SkipListLone {
  import opened Wrappers
  import opened SkipListMachine
  import opened SkipListHeap
  import opened SkipListThreads
  import opened SkipListHistory
  import opened SkipListSafety
  import opened SkipListCalls
  import opened SkipListTheorems

  /** No call but that of thread `t` is in flight. */
  ghost predicate Alone(s: State, t: Tid) {
    t in s.threads && s.threads[t].pc != Idle && forall u :: u in s.threads && u != t ==> s.threads[u].pc == Idle
  }

  /** Thread `t` runs alone from state `from` to state `to`. */
  ghost predicate AloneFrom(run: seq<State>, from: nat, to: nat, t: Tid) {
    from <= to < |run| && forall k :: from <= k <= to ==> Alone(run[k], t)
  }

  predicate Retrying(th: Thread) { th.pc == Release && th.cont == ReadLevel }

  // ----------------------------------------------------------------- a settled heap

  /** No node is being linked or unlinked. */
  ghost predicate Settled(c: Config, h: Heap) { forall n :: !InTransit(c, h, n) }

  lemma AgentActs(c: Config, s: State, n: Addr)
    requires Core(c, s) && InTransit(c, s.heap, n)
    ensures s.heap[n].agent.Some? && s.heap[n].agent.value in s.threads
    ensures TransitPc(s.threads[s.heap[n].agent.value].pc)
  {
    hide HeapInv, PcOk, LocksMatch, AnswerOk;
    var u := s.heap[n].agent.value;
    assert ThreadOk(c, s.heap, u, s.threads[u]);
  }

  lemma SettledAlone(c: Config, s: State, t: Tid)
    requires Core(c, s) && Alone(s, t) && !TransitPc(s.threads[t].pc)
    ensures Settled(c, s.heap)
  {
    hide HeapInv, ThreadsOk, AgentsKnown, InTransit;
    forall n ensures !InTransit(c, s.heap, n) {
      if InTransit(c, s.heap, n) { AgentActs(c, s, n); }
    }
  }

  lemma ListedLive(c: Config, h: Heap, n: Addr, l: nat)
    requires HeapInv(c, h) && Settled(c, h) && InLevel(h, n, l)
    ensures !h[n].marked && (n != c.head ==> Live(h, n))
  {
    hide HeapInv;
    HeadAt(c, h);
    assert !InTransit(c, h, n);
  }

  /** The two heaps differ in who holds which mutex only. */
  ghost predicate SameLinks(h: Heap, h': Heap) {
    h'.Keys == h.Keys && forall n :: n in h ==> h'[n] == h[n].(owner := h'[n].owner)
  }

  // ----------------------------------------------------------- what a lone update knows

  /** The search has recorded the level as it is; from current_level_ up it took the head and null. */
  ghost predicate ExactAt(c: Config, h: Heap, level: nat, preds: seq<Addr>, succs: seq<Addr>, l: nat)
    requires l < |preds| == |succs|
  {
    if l < level then InLevel(h, preds[l], l) && HasLevel(h, preds[l], l) && h[preds[l]].forward[l] == succs[l]
    else preds[l] == c.head && succs[l] == NULL
  }

  ghost predicate ExactFrom(c: Config, h: Heap, level: nat, preds: seq<Addr>, succs: seq<Addr>, from: nat) {
    && |preds| == |succs| == c.maxLevel
    && forall l: nat :: from <= l < |preds| ==> ExactAt(c, h, level, preds, succs, l)
  }

  /** Where the head is expected to lead at the levels the search has skipped. */
  function Target(th: Thread): Addr { if th.call.Put? then NULL else th.node }

  /** From `level` up to below `top` the head leads to `target`. */
  ghost predicate HeadLeads(c: Config, h: Heap, level: nat, top: nat, target: Addr) {
    forall l: nat :: level <= l < top && HasLevel(h, c.head, l) ==> h[c.head].forward[l] == target
  }

  /** The attempt links a new node or unlinks a victim. */
  predicate Changing(th: Thread) { if th.call.Put? then th.found.None? else th.found.Some? }

  /** The attempt has been validated, or needs no validation. */
  predicate Validated(th: Thread) {
    || th.pc in {WriteValue, Alloc, Link, SetLinked, AddSize, RaiseLoad, RaiseCas}
    || th.pc in {Mark, UnlinkLoad, UnlinkStore, SubSize, Recompute, StoreLevel, Done}
    || (th.pc == Release && th.cont == Done)
  }

  /** A new node has a new key, a victim has the key to delete. */
  ghost predicate PlanOk(h: Heap, th: Thread) {
    if th.call.Put? then NoLiveKey(h, th.call.key)
    else Live(h, th.node) && h[th.node].key == th.call.key && th.top == h[th.node].topLevel
  }

  /** What the thread knows between its search and the end of its validation. */
  ghost predicate AttemptOk(c: Config, h: Heap, level: nat, th: Thread) {
    && ExactFrom(c, h, level, th.preds, th.succs, 0)
    && (th.call.Put? && th.found.Some? ==> Live(h, th.node))
    && (th.call.Delete? ==> th.found.Some?)
    && (Changing(th) ==> PlanOk(h, th) && HeadLeads(c, h, level, th.level, Target(th)))
  }

  ghost predicate LoneOk(c: Config, h: Heap, level: nat, s: State, th: Thread) {
    && (th.call.Put? || th.call.Delete?)
    && if Validated(th) then
         && (Changing(th) ==> PlanOk(h, th) && HeadLeads(c, h, level, th.top + 1, Target(th)))
         && (th.call.Delete? && th.found.None? ==> NoLiveKey(h, th.call.key))
       else
         && s.level == level && SameLinks(h, s.heap)
         && match th.pc
            case ReadLevel => true
            case Descend => 1 <= th.level <= level && ExactFrom(c, h, level, th.preds, th.succs, th.level)
                && InLevel(h, th.pred, th.level - 1)
            case Decide => ExactFrom(c, h, level, th.preds, th.succs, 0)
            case Release => Changing(th) && PlanOk(h, th) && !HeadLeads(c, h, level, th.top + 1, Target(th))
            case Acquire => AttemptOk(c, h, level, th) && (th.cont == CheckMarked ==> th.found.Some?)
            case CheckMarked => AttemptOk(c, h, level, th) && th.found.Some?
            case CheckLinked => AttemptOk(c, h, level, th) && th.found.Some?
            case _ => AttemptOk(c, h, level, th)
  }

  predicate Checking(pc: Pc) {
    pc in {InsertPred, InsertSucc, InsertForward, VictimLinked, VictimMarked, DeletePred, DeleteForward}
  }

  lemma InAttempt(c: Config, h: Heap, level: nat, s: State, th: Thread)
    requires LoneOk(c, h, level, s, th) && Checking(th.pc)
    ensures (th.call.Put? || th.call.Delete?) && s.level == level && SameLinks(h, s.heap) && AttemptOk(c, h, level, th)
  {
    hide AttemptOk, SameLinks, HeadLeads, NoLiveKey, ExactFrom;
  }

  lemma GoesOn(c: Config, h: Heap, level: nat, s: State, th: Thread)
    requires Checking(th.pc) && (th.call.Put? || th.call.Delete?)
    requires s.level == level && SameLinks(h, s.heap) && AttemptOk(c, h, level, th)
    ensures LoneOk(c, h, level, s, th)
  {
    hide AttemptOk, SameLinks, HeadLeads, NoLiveKey, ExactFrom;
  }

  lemma TriesAgain(c: Config, h: Heap, level: nat, s: State, th: Thread)
    requires Retrying(th) && (th.call.Put? || th.call.Delete?) && Changing(th) && PlanOk(h, th)
    requires s.level == level && SameLinks(h, s.heap) && !HeadLeads(c, h, level, th.top + 1, Target(th))
    ensures LoneOk(c, h, level, s, th)
  {
    hide AttemptOk, SameLinks, HeadLeads, ExactFrom, PlanOk;
  }

  lemma Passes(c: Config, h: Heap, level: nat, s: State, th: Thread)
    requires th.pc in {Alloc, Mark} && (th.call.Put? || th.call.Delete?) && Changing(th) && PlanOk(h, th)
    requires HeadLeads(c, h, level, th.top + 1, Target(th))
    ensures LoneOk(c, h, level, s, th)
  {
    hide AttemptOk, SameLinks, HeadLeads, ExactFrom, PlanOk;
  }

  /** A validated attempt stays validated. */
  lemma StillValidated(c: Config, h: Heap, level: nat, s: State, th: Thread, s': State, th': Thread)
    requires LoneOk(c, h, level, s, th) && Validated(th) && Validated(th')
    requires th'.call == th.call && th'.found == th.found && th'.top == th.top && (th'.node == th.node || th.call.Put?)
    ensures LoneOk(c, h, level, s', th')
  {
    hide AttemptOk, SameLinks, HeadLeads, ExactFrom, NoLiveKey;
  }

  // ------------------------------------------------------------------------ the search

  lemma LoneStart(c: Config, h: Heap, s: State, t: Tid, ch: Choice, s': State)
    requires Core(c, s) && HeapInv(c, h) && t in s.threads && Step(c, s, t, ch) == Some(s') && t in s'.threads
    requires s.threads[t].pc == ReadLevel && LoneOk(c, h, s.level, s, s.threads[t])
    ensures LoneOk(c, h, s.level, s', s'.threads[t])
  {
    hide HeapInv, ThreadsOk, AgentsKnown;
    assert StartDescent(c, s, t, s.threads[t]) == Some(s');
    hide Step;
    HeadAt(c, h);
  }

  /** The search records level `l`. */
  lemma ExactRecorded(c: Config, h: Heap, level: nat, preds: seq<Addr>, succs: seq<Addr>, l: nat, pred: Addr,
      succ: Addr)
    requires ExactFrom(c, h, level, preds, succs, l + 1) && l < level && l < |preds|
    requires InLevel(h, pred, l) && HasLevel(h, pred, l) && h[pred].forward[l] == succ
    ensures ExactFrom(c, h, level, preds[l := pred], succs[l := succ], l)
  {
    var preds', succs' := preds[l := pred], succs[l := succ];
    forall j: nat | l <= j < |preds| ensures ExactAt(c, h, level, preds', succs', j) {
      if j > l { assert ExactAt(c, h, level, preds, succs, j); }
    }
  }

  lemma LoneDescend(c: Config, h: Heap, level: nat, s: State, t: Tid, ch: Choice, s': State)
    requires HeapInv(c, h) && t in s.threads && Step(c, s, t, ch) == Some(s') && t in s'.threads
    requires level <= c.maxLevel && s.threads[t].pc == Descend && LoneOk(c, h, level, s, s.threads[t])
    ensures LoneOk(c, h, level, s', s'.threads[t])
  {
    hide HeapInv;
    var th := s.threads[t];
    var l := th.level - 1;
    assert ExactFrom(c, h, level, th.preds, th.succs, l + 1) && InLevel(h, th.pred, l);
    NodeAt(c, h, th.pred);
    EdgeAt(c, h, th.pred, l);
    assert s.heap[th.pred].forward == h[th.pred].forward;
    assert |th.preds| == |th.succs| == c.maxLevel;
    hide SameLinks, ExactFrom;
    assert DescendOnce(c, s, t, th) == Some(s');
    hide Step;
    ExactRecorded(c, h, level, th.preds, th.succs, l, th.pred, h[th.pred].forward[l]);
  }

  /** The node met with the key is live. */
  lemma FoundLive(c: Config, h: Heap, level: nat, th: Thread)
    requires ValidConfig(c) && HeapInv(c, h) && Settled(c, h) && ExactFrom(c, h, level, th.preds, th.succs, 0)
    requires th.found.Some? && th.found.value < |th.succs| && th.succs[th.found.value] != NULL
    ensures Live(h, th.succs[th.found.value])
  {
    hide HeapInv, Settled;
    var l := th.found.value;
    assert ExactAt(c, h, level, th.preds, th.succs, l);
    EdgeAt(c, h, th.preds[l], l);
    ListedLive(c, h, th.succs[l], l);
  }

  /** A search that meets the key nowhere proves it absent. */
  lemma MissedAbsent(c: Config, h: Heap, level: nat, th: Thread)
    requires ValidConfig(c) && HeapInv(c, h) && 1 <= level && ExactFrom(c, h, level, th.preds, th.succs, 0)
    requires FindOk(c, h, th.call.key, th.preds, th.succs, None)
    ensures NoLiveKey(h, th.call.key)
  {
    hide HeapInv;
    assert ExactAt(c, h, level, th.preds, th.succs, 0);
    assert RecordOk(c, h, th.call.key, th.preds[0], th.succs[0], true, 0);
    GapMeansAbsent(c, h, th.preds[0], th.call.key);
  }

  lemma LoneDecide(c: Config, h: Heap, level: nat, s: State, t: Tid, ch: Choice, s': State)
    requires ValidConfig(c) && HeapInv(c, h) && Settled(c, h) && 1 <= level && NULL !in h
    requires t in s.threads && Step(c, s, t, ch) == Some(s') && t in s'.threads
    requires s.threads[t].pc == Decide && LoneOk(c, h, level, s, s.threads[t]) && Found(c, h, s.threads[t])
    ensures LoneOk(c, h, level, s', s'.threads[t])
  {
    hide HeapInv, Settled, NoLiveKey, RecordOk, SortUnique;
    var th := s.threads[t];
    assert DecideNext(c, s, t, th, ch) == Some(s');
    hide Step;
    if th.found.Some? {
      FoundLive(c, h, level, th);
    } else {
      MissedAbsent(c, h, level, th);
    }
  }

  // --------------------------------------------------------------------- the validation

  /** The nodes a search recorded are not marked. */
  lemma RecordedUnmarked(c: Config, h: Heap, level: nat, th: Thread, l: nat)
    requires ValidConfig(c) && HeapInv(c, h) && Settled(c, h) && ExactFrom(c, h, level, th.preds, th.succs, 0)
             && l < |th.preds|
    ensures th.preds[l] in h && th.preds[l] != NULL && !h[th.preds[l]].marked
    ensures th.succs[l] != NULL ==> th.succs[l] in h && !h[th.succs[l]].marked
  {
    hide HeapInv, Settled;
    HeadAt(c, h);
    assert ExactAt(c, h, level, th.preds, th.succs, l);
    if l < level {
      ListedLive(c, h, th.preds[l], l);
      EdgeAt(c, h, th.preds[l], l);
      if th.succs[l] != NULL { ListedLive(c, h, th.succs[l], l); }
    }
  }

  /** The checks of a Put on an existing node. */
  lemma LoneChecks(c: Config, h: Heap, level: nat, s: State, t: Tid, ch: Choice, s': State)
    requires t in s.threads && Step(c, s, t, ch) == Some(s') && t in s'.threads && s.threads[t].call.Put?
    requires s.threads[t].pc in {CheckMarked, CheckLinked} && LoneOk(c, h, level, s, s.threads[t])
    ensures LoneOk(c, h, level, s', s'.threads[t])
  {
    hide ExactFrom, HeadLeads, NoLiveKey;
    var th := s.threads[t];
    if th.pc == CheckMarked {
      assert StepCheckMarked(s, t, th) == Some(s');
      hide Step;
    } else {
      assert StepCheckLinked(s, t, th) == Some(s');
      hide Step;
    }
  }

  /** The checks of the neighbours of a new node. */
  lemma LoneNeighbours(c: Config, h: Heap, level: nat, s: State, t: Tid, ch: Choice, s': State)
    requires ValidConfig(c) && HeapInv(c, h) && Settled(c, h)
    requires t in s.threads && Step(c, s, t, ch) == Some(s') && t in s'.threads
    requires s.threads[t].pc in {InsertPred, InsertSucc, DeletePred} && LoneOk(c, h, level, s, s.threads[t])
    requires s.threads[t].level <= s.threads[t].top < c.maxLevel
    ensures LoneOk(c, h, level, s', s'.threads[t])
  {
    hide HeapInv, Settled, HeadLeads, NoLiveKey, LoneOk;
    var th, th' := s.threads[t], s'.threads[t];
    InAttempt(c, h, level, s, th);
    RecordedUnmarked(c, h, level, th, th.level);
    hide ExactFrom;
    assert s.heap[th.preds[th.level]].marked == h[th.preds[th.level]].marked;
    if th.pc == InsertPred {
      assert StepInsertPred(s, t, th) == Some(s');
    } else if th.pc == InsertSucc {
      assert StepInsertSucc(s, t, th) == Some(s');
    } else {
      assert StepDeletePred(s, t, th) == Some(s');
    }
    hide Step;
    GoesOn(c, h, level, s', th');
  }

  /** The comparison of the pointer of the predecessor. */
  lemma LoneForward(c: Config, h: Heap, level: nat, s: State, t: Tid, ch: Choice, s': State)
    requires ValidConfig(c) && HeapInv(c, h) && Settled(c, h)
    requires t in s.threads && Step(c, s, t, ch) == Some(s') && t in s'.threads
    requires s.threads[t].pc == InsertForward && LoneOk(c, h, level, s, s.threads[t])
    requires s.threads[t].level <= s.threads[t].top && s.threads[t].call.Put? && s.threads[t].found.None?
    ensures LoneOk(c, h, level, s', s'.threads[t])
  {
    hide HeapInv, Settled, NoLiveKey, LoneOk;
    var th, th' := s.threads[t], s'.threads[t];
    InAttempt(c, h, level, s, th);
    assert StepInsertForward(s, t, th) == Some(s');
    hide Step;
    assert ExactAt(c, h, level, th.preds, th.succs, th.level);
    hide ExactFrom;
    HeadHas(c, h, th.level);
    if s.heap[th.preds[th.level]].forward[th.level] != th.succs[th.level] {
      HeadOff(c, h, level, th.level, th.top, NULL);
      TriesAgain(c, h, level, s', th');
    } else {
      HeadOneUp(c, h, level, th.level, NULL);
      if th.level == th.top { Passes(c, h, level, s', th'); } else { GoesOn(c, h, level, s', th'); }
    }
  }

  lemma HeadHas(c: Config, h: Heap, l: nat)
    requires HeapInv(c, h)
    ensures c.head in h && (HasLevel(h, c.head, l) <==> l < c.maxLevel)
  {
    hide HeapInv;
    HeadAt(c, h);
    NodeAt(c, h, c.head);
  }

  lemma HeadOff(c: Config, h: Heap, level: nat, l: nat, top: nat, target: Addr)
    requires level <= l <= top && HasLevel(h, c.head, l) && h[c.head].forward[l] != target
    ensures !HeadLeads(c, h, level, top + 1, target)
  {
  }

  lemma HeadOneUp(c: Config, h: Heap, level: nat, l: nat, target: Addr)
    requires HeadLeads(c, h, level, l, target)
    requires level <= l && HasLevel(h, c.head, l) ==> h[c.head].forward[l] == target
    ensures HeadLeads(c, h, level, l + 1, target)
  {
  }

  lemma LoneVictim(c: Config, h: Heap, level: nat, s: State, t: Tid, ch: Choice, s': State)
    requires ValidConfig(c) && t in s.threads && Step(c, s, t, ch) == Some(s') && t in s'.threads
    requires s.threads[t].pc in {VictimLinked, VictimMarked} && LoneOk(c, h, level, s, s.threads[t])
    requires s.threads[t].call.Delete?
    ensures LoneOk(c, h, level, s', s'.threads[t])
  {
    hide ExactFrom, HeadLeads, NoLiveKey, LoneOk;
    var th := s.threads[t];
    InAttempt(c, h, level, s, th);
    assert s.heap[th.node] == h[th.node].(owner := s.heap[th.node].owner);
    hide SameLinks;
    if th.pc == VictimLinked {
      assert StepVictimLinked(s, t, th) == Some(s');
    } else {
      assert StepVictimMarked(c, s, t, th) == Some(s');
    }
    hide Step;
    GoesOn(c, h, level, s', s'.threads[t]);
  }

  /** Below current_level_ the recorded predecessor leads to the victim. */
  lemma LeadsToVictim(c: Config, h: Heap, level: nat, th: Thread, l: nat)
    requires ValidConfig(c) && HeapInv(c, h) && ExactFrom(c, h, level, th.preds, th.succs, 0) && Found(c, h, th)
    requires Live(h, th.node) && h[th.node].key == th.call.key && l <= h[th.node].topLevel && l < level
             && l < |th.preds|
    ensures th.succs[l] == th.node
  {
    hide HeapInv;
    HeadAt(c, h);
    NodeAt(c, h, th.node);
    assert ExactAt(c, h, level, th.preds, th.succs, l);
    assert RecordOk(c, h, th.call.key, th.preds[l], th.succs[l], th.found.None?, l);
    NextAt(c, h, th.preds[l], th.node, l);
    EdgeAt(c, h, th.preds[l], l);
    KeysAt(c, h, th.succs[l], th.node);
  }

  lemma LoneDeleteForward(c: Config, h: Heap, level: nat, s: State, t: Tid, ch: Choice, s': State)
    requires ValidConfig(c) && HeapInv(c, h)
    requires t in s.threads && Step(c, s, t, ch) == Some(s') && t in s'.threads && Found(c, h, s.threads[t])
    requires s.threads[t].pc == DeleteForward && LoneOk(c, h, level, s, s.threads[t])
    requires s.threads[t].level <= s.threads[t].top && s.threads[t].call.Delete?
    ensures LoneOk(c, h, level, s', s'.threads[t])
  {
    hide HeapInv, Found, NoLiveKey, LoneOk;
    var th, th' := s.threads[t], s'.threads[t];
    InAttempt(c, h, level, s, th);
    assert StepDeleteForward(s, t, th) == Some(s');
    hide Step;
    assert ExactAt(c, h, level, th.preds, th.succs, th.level);
    HeadHas(c, h, th.level);
    if th.level < level { LeadsToVictim(c, h, level, th, th.level); }
    hide ExactFrom;
    if s.heap[th.preds[th.level]].forward[th.level] != th.node {
      HeadOff(c, h, level, th.level, th.top, th.node);
      TriesAgain(c, h, level, s', th');
    } else {
      HeadOneUp(c, h, level, th.level, th.node);
      if th.level == th.top { Passes(c, h, level, s', th'); } else { GoesOn(c, h, level, s', th'); }
    }
  }

  // ------------------------------------------------------------------ the other steps

  lemma LockSame(h: Heap, h': Heap, n: Addr, owner: Option<Tid>)
    requires SameLinks(h, h') && n in h'
    ensures SameLinks(h, h'[n := h'[n].(owner := owner)])
  {
  }

  lemma LoneAcquire(c: Config, h: Heap, level: nat, s: State, t: Tid, ch: Choice, s': State)
    requires t in s.threads && Step(c, s, t, ch) == Some(s') && t in s'.threads && KindOk(s.threads[t])
    requires s.threads[t].pc == Acquire && LoneOk(c, h, level, s, s.threads[t])
    requires s.threads[t].cont == InsertPred ==> s.threads[t].found.None?
    ensures LoneOk(c, h, level, s', s'.threads[t])
  {
    hide ExactFrom, HeadLeads, NoLiveKey, SameLinks;
    var th := s.threads[t];
    assert AcquireNext(s, t, th) == Some(s');
    hide Step;
    LockSame(h, s.heap, th.targets[th.taken], Some(t));
  }

  lemma LoneRelease(c: Config, h: Heap, level: nat, s: State, t: Tid, ch: Choice, s': State)
    requires t in s.threads && Step(c, s, t, ch) == Some(s') && t in s'.threads && KindOk(s.threads[t])
    requires s.threads[t].pc == Release && LoneOk(c, h, level, s, s.threads[t])
    ensures LoneOk(c, h, level, s', s'.threads[t])
  {
    hide ExactFrom, HeadLeads, NoLiveKey, SameLinks, AttemptOk;
    var th := s.threads[t];
    assert ReleaseOne(s, t, th, ch) == Some(s');
    hide Step;
    if Validated(th) {
      StillValidated(c, h, level, s, th, s', s'.threads[t]);
    } else {
      LockSame(h, s.heap, ch.addr, None);
    }
  }

  /** A validated attempt goes on to its end. */
  lemma LoneEffects(c: Config, h: Heap, level: nat, s: State, t: Tid, ch: Choice, s': State)
    requires t in s.threads && Step(c, s, t, ch) == Some(s') && t in s'.threads
    requires s.threads[t].pc in {WriteValue, Alloc, Link, SetLinked, AddSize, RaiseLoad, RaiseCas}
    requires s.threads[t].call.Put? && LoneOk(c, h, level, s, s.threads[t])
    ensures LoneOk(c, h, level, s', s'.threads[t])
  {
    hide HeadLeads, NoLiveKey, LoneOk;
    var th := s.threads[t];
    match th.pc {
      case WriteValue => assert StepWriteValue(s, t, th) == Some(s');
      case Alloc => assert StepAlloc(s, t, th, ch) == Some(s');
      case Link => assert StepLink(s, t, th) == Some(s');
      case SetLinked => assert StepSetLinked(s, t, th) == Some(s');
      case AddSize => assert StepAddSize(s, t, th) == Some(s');
      case RaiseLoad => assert StepRaiseLoad(s, t, th) == Some(s');
      case RaiseCas => assert StepRaiseCas(s, t, th, ch) == Some(s');
    }
    hide Step;
    StillValidated(c, h, level, s, th, s', s'.threads[t]);
  }

  lemma LoneRemoval(c: Config, h: Heap, level: nat, s: State, t: Tid, ch: Choice, s': State)
    requires t in s.threads && Step(c, s, t, ch) == Some(s') && t in s'.threads
    requires s.threads[t].pc in {Mark, UnlinkLoad, UnlinkStore, SubSize, Recompute, StoreLevel}
    requires s.threads[t].call.Delete? && LoneOk(c, h, level, s, s.threads[t])
    ensures LoneOk(c, h, level, s', s'.threads[t])
  {
    hide HeadLeads, NoLiveKey, LoneOk;
    var th := s.threads[t];
    match th.pc {
      case Mark => assert StepMark(s, t, th) == Some(s');
      case UnlinkLoad => assert StepUnlinkLoad(s, t, th) == Some(s');
      case UnlinkStore => assert StepUnlinkStore(s, t, th) == Some(s');
      case SubSize => assert StepSubSize(c, s, t, th) == Some(s');
      case Recompute => assert StepRecompute(c, s, t, th) == Some(s');
      case StoreLevel => assert StepStoreLevel(s, t, th) == Some(s');
    }
    hide Step;
    StillValidated(c, h, level, s, th, s', s'.threads[t]);
  }

  /** What a thread knows while it validates. */
  lemma CheckFacts(c: Config, h: Heap, t: Tid, th: Thread)
    requires PcOk(c, h, t, th)
    ensures th.pc in {InsertPred, InsertSucc, InsertForward, DeletePred, DeleteForward} ==>
              th.level <= th.top < c.maxLevel
    ensures th.pc in {InsertPred, InsertSucc, InsertForward} || (th.pc == Acquire && th.cont == InsertPred) ==>
              th.call.Put? && th.found.None?
    ensures th.pc in {CheckMarked, CheckLinked} ==> th.call.Put?
    ensures th.pc in {VictimLinked, VictimMarked, DeletePred, DeleteForward} ==> th.call.Delete?
    ensures th.pc in {Decide, DeleteForward} ==> Found(c, h, th)
  {
    hide Found, Before, Reached, InsertValid, VictimValid;
  }

  lemma FoundSame(c: Config, h: Heap, h': Heap, th: Thread)
    requires SameLinks(h, h') && Found(c, h', th)
    ensures Found(c, h, th)
  {
    forall l: nat | l < |th.preds| ensures RecordOk(c, h, th.call.key, th.preds[l], th.succs[l], th.found.None?, l) {
      assert RecordOk(c, h', th.call.key, th.preds[l], th.succs[l], th.found.None?, l);
    }
  }

  lemma NotYet(c: Config, h: Heap, level: nat, s: State, th: Thread)
    requires LoneOk(c, h, level, s, th) && !Validated(th)
    ensures s.level == level && SameLinks(h, s.heap)
  {
    hide ExactFrom, HeadLeads, NoLiveKey, AttemptOk, SameLinks;
  }

  /** A step of the update before its validation has ended. */
  lemma LoneAttempt(c: Config, h: Heap, level: nat, s: State, t: Tid, ch: Choice, s': State)
    requires Core(c, s) && HeapInv(c, h) && Settled(c, h) && t in s.threads && Step(c, s, t, ch) == Some(s')
             && t in s'.threads
    requires KindOk(s.threads[t]) && s.threads[t].pc != Idle && !Validated(s.threads[t])
             && (s.threads[t].call.Put? || s.threads[t].call.Delete?)
    requires LoneOk(c, h, level, s, s.threads[t])
    ensures LoneOk(c, h, level, s', s'.threads[t])
  {
    hide HeapInv, ThreadsOk, ThreadOk, AgentsKnown, Step, Settled, KindOk, LoneOk, SameLinks, Found;
    var th := s.threads[t];
    NotYet(c, h, level, s, th);
    CoreThread(c, s, t);
    CheckFacts(c, s.heap, t, th);
    HeadAt(c, h);
    if th.pc in {Decide, DeleteForward} { FoundSame(c, h, s.heap, th); }
    match th.pc {
      case ReadLevel => LoneStart(c, h, s, t, ch, s');
      case Descend => LoneDescend(c, h, level, s, t, ch, s');
      case Decide => LoneDecide(c, h, level, s, t, ch, s');
      case Acquire => LoneAcquire(c, h, level, s, t, ch, s');
      case Release => LoneRelease(c, h, level, s, t, ch, s');
      case CheckMarked | CheckLinked => LoneChecks(c, h, level, s, t, ch, s');
      case InsertPred | InsertSucc | DeletePred => LoneNeighbours(c, h, level, s, t, ch, s');
      case InsertForward => LoneForward(c, h, level, s, t, ch, s');
      case VictimLinked | VictimMarked => LoneVictim(c, h, level, s, t, ch, s');
      case DeleteForward => LoneDeleteForward(c, h, level, s, t, ch, s');
      case _ => UpdatePcs(th);
    }
  }

  lemma CoreThread(c: Config, s: State, t: Tid)
    requires Core(c, s) && t in s.threads
    ensures PcOk(c, s.heap, t, s.threads[t])
  {
    hide HeapInv, AgentsKnown, PcOk, LocksMatch, TransitMine, AnswerOk;
  }

  lemma UpdatePcs(th: Thread)
    requires KindOk(th) && (th.call.Put? || th.call.Delete?)
    ensures th.pc !in {WalkLoad, WalkMarked, WalkLinked, WalkMarkedAgain, WalkLinkedAgain, WalkRead}
  {
  }

  // ------------------------------------------------------------------------ lone runs

  /** While one thread runs alone, every step is its own. */
  lemma StepIsMine(c: Config, s: State, s': State, t: Tid) returns (ch: Choice)
    requires Next(c, s, s') && Alone(s, t) && Alone(s', t)
    ensures Step(c, s, t, ch) == Some(s')
  {
    hide Step;
    assert !AllIdle(s);
    var u, choice :| Step(c, s, u, choice) == Some(s');
    StepActs(c, s, u, choice);
    if u != t { InvokeBusies(c, s, u, choice, s'); }
    ch := choice;
  }

  lemma InvokeBusies(c: Config, s: State, u: Tid, ch: Choice, s': State)
    requires Step(c, s, u, ch) == Some(s') && u in s.threads && s.threads[u].pc == Idle
    ensures u in s'.threads && s'.threads[u].pc != Idle
  {
    assert Invoke(c, s, u, s.threads[u], ch) == Some(s');
    hide Step;
  }

  lemma LoneStep(c: Config, h: Heap, level: nat, s: State, t: Tid, s': State)
    requires Inv(c, s) && HeapInv(c, h) && Settled(c, h) && Next(c, s, s') && Alone(s, t) && Alone(s', t)
    requires LoneOk(c, h, level, s, s.threads[t])
    ensures LoneOk(c, h, level, s', s'.threads[t]) && s'.threads[t].call == s.threads[t].call
  {
    hide HeapInv, ThreadsOk, AgentsKnown, LogOk, SizeOk, CallPast, CallLogged, Step, Settled, KindOk, LoneOk, Next;
    var th := s.threads[t];
    var ch := StepIsMine(c, s, s', t);
    KindAt(c, s, t);
    assert CallLogged(s, t);
    LoneKind(c, h, level, s, th);
    SameKind(c, s, t, ch, s');
    if !Validated(th) {
      LoneAttempt(c, h, level, s, t, ch, s');
    } else {
      LoneValidated(c, h, level, s, t, ch, s');
    }
  }

  lemma LoneKind(c: Config, h: Heap, level: nat, s: State, th: Thread)
    requires LoneOk(c, h, level, s, th)
    ensures th.call.Put? || th.call.Delete?
  {
    hide ExactFrom, HeadLeads, NoLiveKey, AttemptOk, SameLinks, PlanOk;
  }

  lemma LoneValidated(c: Config, h: Heap, level: nat, s: State, t: Tid, ch: Choice, s': State)
    requires t in s.threads && Step(c, s, t, ch) == Some(s') && t in s'.threads && KindOk(s.threads[t])
    requires Validated(s.threads[t]) && s'.threads[t].pc != Idle && LoneOk(c, h, level, s, s.threads[t])
    ensures LoneOk(c, h, level, s', s'.threads[t])
  {
    hide Step, LoneOk;
    var th := s.threads[t];
    LoneKind(c, h, level, s, th);
    if th.pc in {WriteValue, Alloc, Link, SetLinked, AddSize, RaiseLoad, RaiseCas} {
      LoneEffects(c, h, level, s, t, ch, s');
    } else if th.pc in {Mark, UnlinkLoad, UnlinkStore, SubSize, Recompute, StoreLevel} {
      LoneRemoval(c, h, level, s, t, ch, s');
    } else if th.pc == Release {
      LoneRelease(c, h, level, s, t, ch, s');
    } else {
      ReturnIdles(c, s, t, ch, s');
    }
  }

  /** From the start of its search on, a lone update knows what the heap was like then. */
  lemma {:induction false} LoneHolds(c: Config, run: seq<State>, from: nat, k: nat, t: Tid)
    requires ValidConfig(c) && IsRun(c, run) && AloneFrom(run, from, k, t)
    requires run[from].threads[t].pc == ReadLevel
             && (run[from].threads[t].call.Put? || run[from].threads[t].call.Delete?)
    ensures HeapInv(c, run[from].heap) && Settled(c, run[from].heap) && 1 <= run[from].level
    ensures LoneOk(c, run[from].heap, run[from].level, run[k], run[k].threads[t])
    ensures run[k].threads[t].call == run[from].threads[t].call
    decreases k
  {
    hide Inv, LoneOk, Settled, Next, HeapInv, Init, Alone;
    Reachable(c, run, from);
    assert Alone(run[from], t);
    SettledStart(c, run[from], t);
    if k > from {
      LoneHolds(c, run, from, k - 1, t);
      Reachable(c, run, k - 1);
      assert Next(c, run[k - 1], run[k]) && Alone(run[k - 1], t) && Alone(run[k], t);
      LoneStep(c, run[from].heap, run[from].level, run[k - 1], t, run[k]);
    }
  }

  lemma SettledStart(c: Config, s: State, t: Tid)
    requires Inv(c, s) && Alone(s, t) && s.threads[t].pc == ReadLevel
    requires s.threads[t].call.Put? || s.threads[t].call.Delete?
    ensures HeapInv(c, s.heap) && Settled(c, s.heap) && 1 <= s.level && LoneOk(c, s.heap, s.level, s, s.threads[t])
  {
    hide HeapInv, ThreadsOk, AgentsKnown, LogOk, SizeOk, CallLogged, CallPast, Settled;
    SettledAlone(c, s, t);
  }

  // --------------------------------------------------------------------------- results

  /**
   * A lone Put tries again only if its key is absent and the head leads somewhere at a
   * level that its search has skipped and its new node needs; an attempt that goes on to
   * allocate the node has found the head leading nowhere at all of these.
   */
  lemma LonePut(c: Config, run: seq<State>, from: nat, k: nat, t: Tid)
    requires ValidConfig(c) && IsRun(c, run) && AloneFrom(run, from, k, t)
    requires run[from].threads[t].pc == ReadLevel && run[from].threads[t].call.Put?
    ensures var h, level, th := run[from].heap, run[from].level, run[k].threads[t];
            && (Retrying(th) ==> NoLiveKey(h, th.call.key) && !HeadLeads(c, h, level, th.top + 1, NULL))
            && (th.pc == Alloc && th.found.None? ==>
                 NoLiveKey(h, th.call.key) && HeadLeads(c, h, level, th.top + 1, NULL))
  {
    hide IsRun, Settled, HeadLeads, NoLiveKey, HeapInv, AttemptOk, SameLinks, Alone;
    LoneHolds(c, run, from, k, t);
  }

  /**
   * A lone Delete of a key in the map never tries again if the head leads to the victim
   * at every level of it that the search has skipped. Otherwise the Delete never returns
   * and the victim stays: every attempt is the same.
   */
  lemma LoneDelete(c: Config, run: seq<State>, from: nat, k: nat, t: Tid, v: Addr)
    requires ValidConfig(c) && IsRun(c, run) && AloneFrom(run, from, k, t)
    requires run[from].threads[t].pc == ReadLevel && run[from].threads[t].call.Delete?
    requires Live(run[from].heap, v) && run[from].heap[v].key == run[from].threads[t].call.key
    ensures var h, level, th := run[from].heap, run[from].level, run[k].threads[t];
            if HeadLeads(c, h, level, h[v].topLevel + 1, v) then !Retrying(th)
            else th.pc != Done && Live(run[k].heap, v) && run[k].heap[v].key == h[v].key
  {
    hide IsRun, Settled, HeadLeads, HeapInv, LoneOk;
    LoneHolds(c, run, from, k, t);
    DeleteOutcome(c, run[from].heap, run[from].level, run[k], run[k].threads[t], v);
  }

  lemma DeleteOutcome(c: Config, h: Heap, level: nat, s: State, th: Thread, v: Addr)
    requires HeapInv(c, h) && LoneOk(c, h, level, s, th) && th.call.Delete? && th.pc != Idle
    requires Live(h, v) && h[v].key == th.call.key
    ensures if HeadLeads(c, h, level, h[v].topLevel + 1, v) then !Retrying(th)
            else th.pc != Done && Live(s.heap, v) && s.heap[v].key == h[v].key
  {
    hide HeadLeads, HeapInv, AttemptOk;
    LiveUnique(c, h);
    if Validated(th) {
      assert th.found.Some?;
    } else {
      NotYet(c, h, level, s, th);
    }
  }

  /** current_level_ is not below a level in use: from there up the head leads nowhere. */
  ghost predicate LevelFits(c: Config, s: State) { HeadLeads(c, s.heap, s.level, c.maxLevel, NULL) }

  /** A lone update never tries again if current_level_ is not below a level in use. */
  lemma LoneUpdate(c: Config, run: seq<State>, from: nat, k: nat, t: Tid)
    requires ValidConfig(c) && IsRun(c, run) && AloneFrom(run, from, k, t)
    requires run[from].threads[t].pc == ReadLevel
             && (run[from].threads[t].call.Put? || run[from].threads[t].call.Delete?)
    requires LevelFits(c, run[from])
    ensures !Retrying(run[k].threads[t])
  {
    hide IsRun, Settled, HeadLeads, HeapInv, AttemptOk, SameLinks;
    LoneHolds(c, run, from, k, t);
    var h, level, th := run[from].heap, run[from].level, run[k].threads[t];
    if Retrying(th) {
      if th.call.Delete? {
        TallLeads(c, h, level, th.node);
      } else {
        FitsLower(c, h, level, th.top + 1);
      }
    }
  }

  /** Where the head leads nowhere from a level up, no listed node is that tall. */
  lemma TallLeads(c: Config, h: Heap, level: nat, n: Addr)
    requires ValidConfig(c) && HeapInv(c, h) && Live(h, n) && HeadLeads(c, h, level, c.maxLevel, NULL)
    ensures HeadLeads(c, h, level, h[n].topLevel + 1, n)
  {
    hide HeapInv;
    HeadAt(c, h);
    NodeAt(c, h, c.head);
    NodeAt(c, h, n);
    if level <= h[n].topLevel { NextAt(c, h, c.head, n, level); }
  }

  lemma FitsLower(c: Config, h: Heap, level: nat, top: nat)
    requires HeapInv(c, h) && HeadLeads(c, h, level, c.maxLevel, NULL)
    ensures HeadLeads(c, h, level, top, NULL)
  {
    hide HeapInv;
    HeadAt(c, h);
    NodeAt(c, h, c.head);
  }
}
