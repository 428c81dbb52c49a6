/**
 * Single steps of the concurrent skip list with what they do to thread and heap, and
 * how they join into runs. The runs of SkipListRace and SkipListStale are made of them.
 */
module SkipListMoves {
  import opened Wrappers
  import opened Bytes
  import opened Orders
  import opened SkipListMachine

  const HEAD: Addr := 1

  /** Two levels, keys in byte order. */
  function Duo(): Config { Config(LexLess, 2, HEAD) }

  lemma DuoValid()
    ensures ValidConfig(Duo())
  {
    LexOrder();
  }

  function Quietly(addr: Addr): Choice { Choice(Snapshot([]), 0, addr, false) }

  ghost predicate At(s: State, t: Tid, pc: Pc) { t in s.threads && s.threads[t].pc == pc }

  /** Thread `t` goes on as `th`, the heap becomes `h`, current_level_ `level`; nobody else moves. */
  ghost predicate Moves(s: State, t: Tid, s': State, h: Heap, level: nat, th: Thread) {
    && Next(Duo(), s, s') && t in s.threads && s'.threads == s.threads[t := th] && t in s'.threads
    && s'.heap == h && s'.level == level && |s'.past| == |s.past| + 1
  }

  lemma Does(s: State, t: Tid, ch: Choice, s': State)
    requires Step(Duo(), s, t, ch) == Some(s')
    ensures Next(Duo(), s, s')
  {
    hide Step;
  }

  // -------------------------------------------------------------------------------------- the search

  lemma IdleActs(s: State, t: Tid, ch: Choice)
    requires At(s, t, Idle)
    ensures Step(Duo(), s, t, ch) == Invoke(Duo(), s, t, s.threads[t], ch)
  {
    hide Invoke;
  }

  lemma Invoked(s: State, t: Tid, call: Call) returns (s': State)
    requires At(s, t, Idle)
    requires |s.past| > 0 && !call.Snapshot? && (call.Scan? ==> !LexLess(call.end, call.key))
    ensures var th := s.threads[t];
            Moves(s, t, s', s.heap, s.level,
                  th.(pc := ReadLevel, call := call, pred := HEAD, result := [], ret := false,
                      found := None, began := |s.past| - 1, logged := |s.log|, lin := None))
  {
    hide Step;
    var th, ch := s.threads[t], Quietly(NULL).(call := call);
    IdleActs(s, t, ch);
    s' := Invoke(Duo(), s, t, th, ch).value;
    Does(s, t, ch, s');
  }

  lemma Started(s: State, t: Tid) returns (s': State)
    requires At(s, t, ReadLevel)
    requires 1 <= s.level
    ensures var th := s.threads[t];
            Moves(s, t, s', s.heap, s.level, th.(pc := Descend, level := s.level, pred := HEAD, found := None,
                      preds := [HEAD, HEAD], succs := [NULL, NULL]))
  {
    var th, ch := s.threads[t], Quietly(NULL);
    assert seq(2, _ => HEAD) == [HEAD, HEAD] && seq(2, _ => NULL) == [NULL, NULL];
    assert Step(Duo(), s, t, ch) == StartDescent(Duo(), s, t, th) by { hide StartDescent; }
    hide Step;
    s' := StartDescent(Duo(), s, t, th).value;
    Does(s, t, ch, s');
  }

  lemma DescendActs(s: State, t: Tid, ch: Choice)
    requires At(s, t, Descend)
    ensures Step(Duo(), s, t, ch) == DescendOnce(Duo(), s, t, s.threads[t])
  {
    hide DescendOnce;
  }

  lemma Advanced(s: State, t: Tid, cur: Addr) returns (s': State)
    requires At(s, t, Descend)
    requires var th := s.threads[t]; 1 <= th.level && HasLevel(s.heap, th.pred, th.level - 1)
    requires var th := s.threads[t]; s.heap[th.pred].forward[th.level - 1] == cur && cur != NULL
    requires cur in s.heap && LexLess(s.heap[cur].key, s.threads[t].call.key)
    ensures var th := s.threads[t];
            Moves(s, t, s', s.heap, s.level, th.(pred := cur))
  {
    hide Step;
    var th, ch := s.threads[t], Quietly(NULL);
    DescendActs(s, t, ch);
    s' := DescendOnce(Duo(), s, t, th).value;
    Does(s, t, ch, s');
  }

  /** Where the search has met the key. */
  function Hit(h: Heap, th: Thread, l: nat, cur: Addr): Option<nat> {
    if th.found == None && cur in h && cur != NULL && !LexLess(th.call.key, h[cur].key) then Some(l) else th.found
  }

  lemma Recorded(s: State, t: Tid, l: nat, cur: Addr) returns (s': State)
    requires At(s, t, Descend)
    requires var th := s.threads[t]; l + 1 == th.level && l < |th.preds| == |th.succs|
    requires var th := s.threads[t]; HasLevel(s.heap, th.pred, l) && s.heap[th.pred].forward[l] == cur
    requires cur != NULL ==> cur in s.heap && !LexLess(s.heap[cur].key, s.threads[t].call.key)
    ensures var th := s.threads[t];
            Moves(s, t, s', s.heap, s.level, th.(pc := if l == 0 then Decide else Descend, level := l,
                      found := Hit(s.heap, th, l, cur), preds := th.preds[l := th.pred], succs := th.succs[l := cur]))
  {
    hide Step;
    var th, ch := s.threads[t], Quietly(NULL);
    DescendActs(s, t, ch);
    s' := DescendOnce(Duo(), s, t, th).value;
    Does(s, t, ch, s');
  }

  lemma Decided(s: State, t: Tid, top: nat, p: Addr) returns (s': State)
    requires At(s, t, Decide)
    requires var th := s.threads[t]; th.call.Put? && th.found == None && top < 2 == |th.preds|
    requires SortUnique(s.threads[t].preds[..top + 1]) == [p]
    ensures var th := s.threads[t];
            Moves(s, t, s', s.heap, s.level,
                  th.(pc := Acquire, cont := InsertPred, level := 0, top := top, targets := [p], taken := 0))
  {
    var th, ch := s.threads[t], Quietly(NULL).(level := top);
    assert Step(Duo(), s, t, ch) == DecideNext(Duo(), s, t, th, ch) by { hide DecideNext; }
    hide Step;
    s' := DecideNext(Duo(), s, t, th, ch).value;
    Does(s, t, ch, s');
  }

  lemma DecidedDelete(s: State, t: Tid, v: Addr, targets: seq<Addr>) returns (s': State)
    requires At(s, t, Decide)
    requires var th := s.threads[t]; th.call.Delete? && th.found == Some(0) && |th.preds| == |th.succs| == 2
    requires s.threads[t].succs[0] == v
    requires v in s.heap && s.heap[v].topLevel == 0
    requires SortUnique(s.threads[t].preds[..1] + [v]) == targets
    ensures var th := s.threads[t];
            Moves(s, t, s', s.heap, s.level,
                  th.(pc := Acquire, cont := VictimLinked, level := 0, top := 0, node := v,
                      targets := targets, taken := 0))
  {
    var th, ch := s.threads[t], Quietly(NULL);
    assert Step(Duo(), s, t, ch) == DecideNext(Duo(), s, t, th, ch) by { hide DecideNext; }
    hide Step;
    s' := DecideNext(Duo(), s, t, th, ch).value;
    Does(s, t, ch, s');
  }

  lemma DecidedRead(s: State, t: Tid) returns (s': State)
    requires At(s, t, Decide)
    requires s.threads[t].call.Get? || s.threads[t].call.Scan?
    ensures var th := s.threads[t];
            Moves(s, t, s', s.heap, s.level, th.(pc := WalkLoad))
  {
    var th, ch := s.threads[t], Quietly(NULL);
    assert Step(Duo(), s, t, ch) == DecideNext(Duo(), s, t, th, ch) by { hide DecideNext; }
    hide Step;
    s' := DecideNext(Duo(), s, t, th, ch).value;
    Does(s, t, ch, s');
  }

  // ----------------------------------------------------------------------------------------- mutexes

  lemma AcquireActs(s: State, t: Tid, ch: Choice)
    requires At(s, t, Acquire)
    ensures Step(Duo(), s, t, ch) == AcquireNext(s, t, s.threads[t])
  {
    hide AcquireNext;
  }

  lemma Acquired(s: State, t: Tid, n: Addr) returns (s': State)
    requires At(s, t, Acquire)
    requires var th := s.threads[t]; th.taken < |th.targets| && th.targets[th.taken] == n
    requires n in s.heap && s.heap[n].owner == None
    ensures var th := s.threads[t];
            Moves(s, t, s', s.heap[n := s.heap[n].(owner := Some(t))], s.level,
                  th.(locks := th.locks + {n}, taken := th.taken + 1,
                      pc := if th.taken + 1 == |th.targets| then th.cont else Acquire))
  {
    hide Step;
    var th, ch := s.threads[t], Quietly(NULL);
    AcquireActs(s, t, ch);
    s' := AcquireNext(s, t, th).value;
    Does(s, t, ch, s');
  }

  lemma Released(s: State, t: Tid, n: Addr) returns (s': State)
    requires At(s, t, Release)
    requires n in s.threads[t].locks && n in s.heap
    ensures var th := s.threads[t];
            Moves(s, t, s', s.heap[n := s.heap[n].(owner := None)], s.level,
                  th.(locks := th.locks - {n}, pc := if th.locks == {n} then th.cont else Release))
  {
    var th, ch := s.threads[t], Quietly(n);
    assert Step(Duo(), s, t, ch) == ReleaseOne(s, t, th, ch) by { hide ReleaseOne; }
    hide Step;
    s' := ReleaseOne(s, t, th, ch).value;
    Does(s, t, ch, s');
  }

  lemma Returned(s: State, t: Tid) returns (s': State)
    requires At(s, t, Done)
    ensures var th := s.threads[t];
            Moves(s, t, s', s.heap, s.level, th.(pc := Idle))
  {
    var th, ch := s.threads[t], Quietly(NULL);
    assert Step(Duo(), s, t, ch) == Local(s, t, th.(pc := Idle)) by { hide Local; }
    hide Step;
    s' := Local(s, t, th.(pc := Idle)).value;
    Does(s, t, ch, s');
  }

  // --------------------------------------------------------------------------------------- insertion

  lemma PredChecked(s: State, t: Tid, p: Addr) returns (s': State)
    requires At(s, t, InsertPred)
    requires var th := s.threads[t]; th.level < |th.preds| && th.preds[th.level] == p
    requires p != NULL && p in s.heap && !s.heap[p].marked
    ensures var th := s.threads[t];
            Moves(s, t, s', s.heap, s.level, th.(pc := InsertSucc))
  {
    var th, ch := s.threads[t], Quietly(NULL);
    assert Step(Duo(), s, t, ch) == StepInsertPred(s, t, th) by { hide StepInsertPred; }
    hide Step;
    s' := StepInsertPred(s, t, th).value;
    Does(s, t, ch, s');
  }

  lemma SuccChecked(s: State, t: Tid, n: Addr) returns (s': State)
    requires At(s, t, InsertSucc)
    requires var th := s.threads[t]; th.level < |th.succs| && th.succs[th.level] == n
    requires n != NULL ==> n in s.heap && !s.heap[n].marked
    ensures var th := s.threads[t];
            Moves(s, t, s', s.heap, s.level, th.(pc := InsertForward))
  {
    var th, ch := s.threads[t], Quietly(NULL);
    assert Step(Duo(), s, t, ch) == StepInsertSucc(s, t, th) by { hide StepInsertSucc; }
    hide Step;
    s' := StepInsertSucc(s, t, th).value;
    Does(s, t, ch, s');
  }

  lemma InsertForwardActs(s: State, t: Tid, ch: Choice)
    requires At(s, t, InsertForward)
    ensures Step(Duo(), s, t, ch) == StepInsertForward(s, t, s.threads[t])
  {
    hide StepInsertForward;
  }

  lemma ForwardChecked(s: State, t: Tid) returns (s': State)
    requires At(s, t, InsertForward)
    requires var th := s.threads[t]; th.level < |th.preds| == |th.succs|
    requires var th := s.threads[t]; HasLevel(s.heap, th.preds[th.level], th.level)
    requires var th := s.threads[t]; s.heap[th.preds[th.level]].forward[th.level] == th.succs[th.level]
    ensures var th := s.threads[t];
            Moves(s, t, s', s.heap, s.level, if th.level == th.top then th.(pc := Alloc, level := 0)
                  else th.(pc := InsertPred, level := th.level + 1))
  {
    hide Step;
    var th, ch := s.threads[t], Quietly(NULL);
    InsertForwardActs(s, t, ch);
    s' := StepInsertForward(s, t, th).value;
    Does(s, t, ch, s');
  }

  /** The node of an insertion before it is linked. */
  function NewNode(th: Thread, t: Tid): Node
    requires th.call.Put? && th.top < |th.preds| == |th.succs|
  {
    Node(th.call.key, th.call.value, th.top, th.succs[..th.top + 1],
         false, false, None, 0, Some(t), th.preds[..th.top + 1])
  }

  lemma Allocated(s: State, t: Tid, a: Addr) returns (s': State)
    requires At(s, t, Alloc)
    requires var th := s.threads[t]; th.call.Put? && th.top < |th.preds| == |th.succs|
    requires a != NULL && a !in s.heap
    ensures var th := s.threads[t];
            Moves(s, t, s', s.heap[a := NewNode(th, t)], s.level, th.(pc := Link, level := 0, node := a))
  {
    var th, ch := s.threads[t], Quietly(a);
    assert Step(Duo(), s, t, ch) == StepAlloc(s, t, th, ch) by { hide StepAlloc; }
    hide Step;
    s' := StepAlloc(s, t, th, ch).value;
    Does(s, t, ch, s');
  }

  lemma LinkActs(s: State, t: Tid, ch: Choice)
    requires At(s, t, Link)
    ensures Step(Duo(), s, t, ch) == StepLink(s, t, s.threads[t])
  {
    hide StepLink;
  }

  lemma Linked(s: State, t: Tid, p: Addr, a: Addr) returns (s': State)
    requires At(s, t, Link)
    requires var th := s.threads[t]; th.level < |th.preds| && th.preds[th.level] == p && th.node == a
    requires a in s.heap && a != p && HasLevel(s.heap, p, s.threads[t].level)
    ensures var th := s.threads[t];
            Moves(s, t, s', s.heap[p := s.heap[p].(forward := s.heap[p].forward[th.level := a])]
                            [a := s.heap[a].(linked := th.level + 1)], s.level,
                  th.(pc := if th.level == th.top then SetLinked else Link, level := th.level + 1))
  {
    hide Step;
    var th, ch := s.threads[t], Quietly(NULL);
    LinkActs(s, t, ch);
    s' := StepLink(s, t, th).value;
    Does(s, t, ch, s');
  }

  lemma Completed(s: State, t: Tid) returns (s': State)
    requires At(s, t, SetLinked)
    requires s.threads[t].node in s.heap
    ensures var th := s.threads[t];
            Moves(s, t, s', s.heap[th.node := s.heap[th.node].(fullyLinked := true)], s.level,
                  th.(pc := AddSize, ret := true, lin := Some(|s.log|)))
  {
    var th, ch := s.threads[t], Quietly(NULL);
    assert Step(Duo(), s, t, ch) == StepSetLinked(s, t, th) by { hide StepSetLinked; }
    hide Step;
    s' := StepSetLinked(s, t, th).value;
    Does(s, t, ch, s');
  }

  lemma Counted(s: State, t: Tid) returns (s': State)
    requires At(s, t, AddSize)
    ensures var th := s.threads[t];
            Moves(s, t, s', s.heap, s.level, th.(pc := RaiseLoad))
  {
    var th, ch := s.threads[t], Quietly(NULL);
    assert Step(Duo(), s, t, ch) == StepAddSize(s, t, th) by { hide StepAddSize; }
    hide Step;
    s' := StepAddSize(s, t, th).value;
    Does(s, t, ch, s');
  }

  lemma LevelLoaded(s: State, t: Tid) returns (s': State)
    requires At(s, t, RaiseLoad)
    ensures var th := s.threads[t];
            Moves(s, t, s', s.heap, s.level, th.(pc := RaiseCas, observed := s.level))
  {
    var th, ch := s.threads[t], Quietly(NULL);
    assert Step(Duo(), s, t, ch) == StepRaiseLoad(s, t, th) by { hide StepRaiseLoad; }
    hide Step;
    s' := StepRaiseLoad(s, t, th).value;
    Does(s, t, ch, s');
  }

  lemma LevelRaised(s: State, t: Tid) returns (s': State)
    requires At(s, t, RaiseCas)
    requires s.threads[t].observed == s.level
    ensures var th := s.threads[t];
            Moves(s, t, s', s.heap, if th.top + 1 <= s.level then s.level else th.top + 1,
                  th.(pc := Release, cont := Done))
  {
    var th, ch := s.threads[t], Quietly(NULL);
    assert Step(Duo(), s, t, ch) == StepRaiseCas(s, t, th, ch) by { hide StepRaiseCas; }
    hide Step;
    s' := StepRaiseCas(s, t, th, ch).value;
    Does(s, t, ch, s');
  }

  // ---------------------------------------------------------------------------------------- deletion

  lemma VictimSeen(s: State, t: Tid) returns (s': State)
    requires At(s, t, VictimLinked)
    requires var th := s.threads[t]; th.node in s.heap && s.heap[th.node].fullyLinked
    ensures var th := s.threads[t];
            Moves(s, t, s', s.heap, s.level, th.(pc := VictimMarked))
  {
    var th, ch := s.threads[t], Quietly(NULL);
    assert Step(Duo(), s, t, ch) == StepVictimLinked(s, t, th) by { hide StepVictimLinked; }
    hide Step;
    s' := StepVictimLinked(s, t, th).value;
    Does(s, t, ch, s');
  }

  lemma VictimChecked(s: State, t: Tid) returns (s': State)
    requires At(s, t, VictimMarked)
    requires var th := s.threads[t]; th.node in s.heap && !s.heap[th.node].marked && s.heap[th.node].key == th.call.key
    ensures var th := s.threads[t];
            Moves(s, t, s', s.heap, s.level, th.(pc := DeletePred))
  {
    var th, ch := s.threads[t], Quietly(NULL);
    LexIrreflexive(th.call.key);
    assert Step(Duo(), s, t, ch) == StepVictimMarked(Duo(), s, t, th) by { hide StepVictimMarked; }
    hide Step;
    s' := StepVictimMarked(Duo(), s, t, th).value;
    Does(s, t, ch, s');
  }

  lemma DeletePredChecked(s: State, t: Tid, p: Addr) returns (s': State)
    requires At(s, t, DeletePred)
    requires var th := s.threads[t]; th.level < |th.preds| && th.preds[th.level] == p
    requires p != NULL && p in s.heap && !s.heap[p].marked
    ensures var th := s.threads[t];
            Moves(s, t, s', s.heap, s.level, th.(pc := DeleteForward))
  {
    var th, ch := s.threads[t], Quietly(NULL);
    assert Step(Duo(), s, t, ch) == StepDeletePred(s, t, th) by { hide StepDeletePred; }
    hide Step;
    s' := StepDeletePred(s, t, th).value;
    Does(s, t, ch, s');
  }

  lemma DeleteForwardChecked(s: State, t: Tid) returns (s': State)
    requires At(s, t, DeleteForward)
    requires var th := s.threads[t]; th.level == th.top && th.level < |th.preds|
    requires var th := s.threads[t]; HasLevel(s.heap, th.preds[th.level], th.level)
    requires var th := s.threads[t]; s.heap[th.preds[th.level]].forward[th.level] == th.node
    ensures var th := s.threads[t];
            Moves(s, t, s', s.heap, s.level, th.(pc := Mark))
  {
    var th, ch := s.threads[t], Quietly(NULL);
    assert Step(Duo(), s, t, ch) == StepDeleteForward(s, t, th) by { hide StepDeleteForward; }
    hide Step;
    s' := StepDeleteForward(s, t, th).value;
    Does(s, t, ch, s');
  }

  lemma MarkActs(s: State, t: Tid, ch: Choice)
    requires At(s, t, Mark)
    ensures Step(Duo(), s, t, ch) == StepMark(s, t, s.threads[t])
  {
    hide StepMark;
  }

  function MarkedNode(n: Node, th: Thread, t: Tid): Node
    requires th.top < |th.preds|
  {
    n.(marked := true, agent := Some(t), guards := th.preds[..th.top + 1])
  }

  lemma Marked(s: State, t: Tid) returns (s': State)
    requires At(s, t, Mark)
    requires var th := s.threads[t]; th.node in s.heap && th.top < |th.preds|
    ensures var th := s.threads[t];
            Moves(s, t, s', s.heap[th.node := MarkedNode(s.heap[th.node], th, t)], s.level,
                  th.(pc := UnlinkLoad, level := th.top + 1, ret := true, lin := Some(|s.log|)))
  {
    hide Step;
    var th, ch := s.threads[t], Quietly(NULL);
    MarkActs(s, t, ch);
    s' := StepMark(s, t, th).value;
    Does(s, t, ch, s');
  }

  lemma NextLoaded(s: State, t: Tid) returns (s': State)
    requires At(s, t, UnlinkLoad)
    requires var th := s.threads[t]; th.level == 1 && HasLevel(s.heap, th.node, 0)
    ensures var th := s.threads[t];
            Moves(s, t, s', s.heap, s.level, th.(pc := UnlinkStore, next := s.heap[th.node].forward[0]))
  {
    var th, ch := s.threads[t], Quietly(NULL);
    assert Step(Duo(), s, t, ch) == StepUnlinkLoad(s, t, th) by { hide StepUnlinkLoad; }
    hide Step;
    s' := StepUnlinkLoad(s, t, th).value;
    Does(s, t, ch, s');
  }

  lemma Unlinked(s: State, t: Tid, p: Addr, v: Addr) returns (s': State)
    requires At(s, t, UnlinkStore)
    requires var th := s.threads[t]; th.level == 1 <= |th.preds| && th.preds[0] == p && th.node == v
    requires p != v && HasLevel(s.heap, p, 0) && v in s.heap
    ensures var th := s.threads[t];
            Moves(s, t, s', s.heap[p := s.heap[p].(forward := s.heap[p].forward[0 := th.next])]
                            [v := s.heap[v].(linked := 0)], s.level,
                  th.(pc := SubSize, level := 0))
  {
    var th, ch := s.threads[t], Quietly(NULL);
    assert Step(Duo(), s, t, ch) == StepUnlinkStore(s, t, th) by { hide StepUnlinkStore; }
    hide Step;
    s' := StepUnlinkStore(s, t, th).value;
    Does(s, t, ch, s');
  }

  lemma Discounted(s: State, t: Tid) returns (s': State)
    requires At(s, t, SubSize)
    ensures var th := s.threads[t];
            Moves(s, t, s', s.heap, s.level, th.(pc := Recompute, level := 2))
  {
    var th, ch := s.threads[t], Quietly(NULL);
    assert Step(Duo(), s, t, ch) == StepSubSize(Duo(), s, t, th) by { hide StepSubSize; }
    hide Step;
    s' := StepSubSize(Duo(), s, t, th).value;
    Does(s, t, ch, s');
  }

  lemma RecomputeActs(s: State, t: Tid, ch: Choice)
    requires At(s, t, Recompute)
    ensures Step(Duo(), s, t, ch) == StepRecompute(Duo(), s, t, s.threads[t])
  {
    hide StepRecompute;
  }

  lemma Recomputed(s: State, t: Tid) returns (s': State)
    requires At(s, t, Recompute)
    requires 1 <= s.threads[t].level <= 2
    requires s.threads[t].level == 2 ==> HasLevel(s.heap, HEAD, 1) && s.heap[HEAD].forward[1] == NULL
    ensures var th := s.threads[t];
            Moves(s, t, s', s.heap, s.level, if th.level == 1 then th.(pc := StoreLevel) else th.(level := 1))
  {
    hide Step;
    var th, ch := s.threads[t], Quietly(NULL);
    RecomputeActs(s, t, ch);
    s' := StepRecompute(Duo(), s, t, th).value;
    Does(s, t, ch, s');
  }

  lemma LevelStored(s: State, t: Tid) returns (s': State)
    requires At(s, t, StoreLevel)
    ensures var th := s.threads[t];
            Moves(s, t, s', s.heap, th.level, th.(pc := Release, cont := Done))
  {
    var th, ch := s.threads[t], Quietly(NULL);
    assert Step(Duo(), s, t, ch) == StepStoreLevel(s, t, th) by { hide StepStoreLevel; }
    hide Step;
    s' := StepStoreLevel(s, t, th).value;
    Does(s, t, ch, s');
  }

  // -------------------------------------------------------------------------------- the bottom level

  /** The reader stops in front of `cur`. */
  predicate Stops(h: Heap, th: Thread, cur: Addr)
    requires cur != NULL ==> cur in h
  {
    || cur == NULL
    || (th.call.Get? && !KeysEqual(Duo(), h[cur].key, th.call.key))
    || (th.call.Scan? && LexLess(th.call.end, h[cur].key))
  }

  lemma Loaded(s: State, t: Tid, cur: Addr) returns (s': State)
    requires At(s, t, WalkLoad)
    requires var th := s.threads[t]; HasLevel(s.heap, th.pred, 0) && s.heap[th.pred].forward[0] == cur
    requires cur != NULL ==> cur in s.heap
    ensures var th := s.threads[t];
            Moves(s, t, s', s.heap, s.level,
                  th.(pc := if Stops(s.heap, th, cur) then Done else WalkMarked, cur := cur))
  {
    var th, ch := s.threads[t], Quietly(NULL);
    assert Step(Duo(), s, t, ch) == StepWalkLoad(Duo(), s, t, th) by { hide StepWalkLoad; }
    hide Step;
    s' := StepWalkLoad(Duo(), s, t, th).value;
    Does(s, t, ch, s');
  }

  lemma SeenUnmarked(s: State, t: Tid) returns (s': State)
    requires At(s, t, WalkMarked)
    requires var th := s.threads[t]; th.cur in s.heap && !s.heap[th.cur].marked
    ensures var th := s.threads[t];
            Moves(s, t, s', s.heap, s.level, th.(pc := WalkLinked))
  {
    var th, ch := s.threads[t], Quietly(NULL);
    assert Step(Duo(), s, t, ch) == StepWalkMarked(s, t, th) by { hide StepWalkMarked; }
    hide Step;
    s' := StepWalkMarked(s, t, th).value;
    Does(s, t, ch, s');
  }

  lemma SeenLinked(s: State, t: Tid) returns (s': State)
    requires At(s, t, WalkLinked)
    requires var th := s.threads[t]; th.cur in s.heap && s.heap[th.cur].fullyLinked
    ensures var th := s.threads[t];
            Moves(s, t, s', s.heap, s.level,
                  th.(pc := Acquire, cont := WalkMarkedAgain, targets := [th.cur], taken := 0))
  {
    var th, ch := s.threads[t], Quietly(NULL);
    assert Step(Duo(), s, t, ch) == StepWalkLinked(s, t, th) by { hide StepWalkLinked; }
    hide Step;
    s' := StepWalkLinked(s, t, th).value;
    Does(s, t, ch, s');
  }

  lemma SeenUnmarkedAgain(s: State, t: Tid) returns (s': State)
    requires At(s, t, WalkMarkedAgain)
    requires var th := s.threads[t]; th.cur in s.heap && !s.heap[th.cur].marked
    ensures var th := s.threads[t];
            Moves(s, t, s', s.heap, s.level, th.(pc := WalkLinkedAgain))
  {
    var th, ch := s.threads[t], Quietly(NULL);
    assert Step(Duo(), s, t, ch) == StepWalkMarkedAgain(s, t, th) by { hide StepWalkMarkedAgain; }
    hide Step;
    s' := StepWalkMarkedAgain(s, t, th).value;
    Does(s, t, ch, s');
  }

  lemma SeenLinkedAgain(s: State, t: Tid) returns (s': State)
    requires At(s, t, WalkLinkedAgain)
    requires var th := s.threads[t]; th.cur in s.heap && s.heap[th.cur].fullyLinked
    ensures var th := s.threads[t];
            Moves(s, t, s', s.heap, s.level, th.(pc := WalkRead))
  {
    var th, ch := s.threads[t], Quietly(NULL);
    assert Step(Duo(), s, t, ch) == StepWalkLinkedAgain(s, t, th) by { hide StepWalkLinkedAgain; }
    hide Step;
    s' := StepWalkLinkedAgain(s, t, th).value;
    Does(s, t, ch, s');
  }

  lemma Collects(s: State, t: Tid) returns (s': State)
    requires At(s, t, WalkRead)
    requires s.threads[t].cur in s.heap && s.threads[t].call.Scan?
    ensures var th := s.threads[t];
            Moves(s, t, s', s.heap, s.level, th.(pc := Release, cont := WalkLoad, pred := th.cur, ret := true,
                      result := th.result + [(s.heap[th.cur].key, s.heap[th.cur].value)]))
  {
    var th, ch := s.threads[t], Quietly(NULL);
    assert Step(Duo(), s, t, ch) == StepWalkRead(s, t, th) by { hide StepWalkRead; }
    hide Step;
    s' := StepWalkRead(s, t, th).value;
    Does(s, t, ch, s');
  }

  // -------------------------------------------------------------------------------------------- runs

  /** The run leads from `s` to `s'`, recording every heap, and the nodes of `kept` stay as they are. */
  ghost predicate Leads(run: seq<State>, s: State, s': State, kept: Heap) {
    && |run| >= 1 && run[0] == s && run[|run| - 1] == s' && |s'.past| == |s.past| + |run| - 1
    && (forall i :: 0 <= i < |run| - 1 ==> Next(Duo(), run[i], run[i + 1]))
    && (forall i :: 0 <= i < |run| ==> Keeps(run[i].heap, kept))
  }

  ghost predicate Keeps(h: Heap, kept: Heap) { forall n :: n in kept ==> n in h && h[n] == kept[n] }

  lemma KeepsSet(h: Heap, a: Addr, n: Node, kept: Heap)
    requires Keeps(h, kept) && a !in kept
    ensures Keeps(h[a := n], kept)
  {
  }

  lemma Stay(s: State, kept: Heap)
    requires Keeps(s.heap, kept)
    ensures Leads([s], s, s, kept)
  {
  }

  /** One more step of thread `t` on a run that has moved only `t`. */
  lemma Go(run: seq<State>, s: State, s1: State, t: Tid, s2: State, h: Heap, level: nat, th: Thread, kept: Heap)
    requires Leads(run, s, s1, kept) && Moves(s1, t, s2, h, level, th) && Keeps(h, kept)
    requires t in s.threads && s1.threads == s.threads[t := s1.threads[t]]
    ensures Leads(run + [s2], s, s2, kept)
    ensures s2.threads == s.threads[t := th] && t in s2.threads && s2.threads[t] == th
  {
    hide Next, Keeps;
  }

  lemma Join(a: seq<State>, b: seq<State>, s: State, s1: State, s2: State, kept: Heap)
    requires Leads(a, s, s1, kept) && Leads(b, s1, s2, kept)
    ensures Leads(a + b[1..], s, s2, kept) && |a + b[1..]| == |a| + |b| - 1
  {
    hide Next, Keeps;
    var run := a + b[1..];
    forall i | 0 <= i < |run| - 1 ensures Next(Duo(), run[i], run[i + 1]) {
      if i < |a| - 1 {
        assert run[i] == a[i] && run[i + 1] == a[i + 1];
      } else {
        assert run[i + 1] == b[i - |a| + 2] && run[i] == b[i - |a| + 1];
      }
    }
    forall i | 0 <= i < |run| ensures Keeps(run[i].heap, kept) {
      if i < |a| { assert run[i] == a[i]; } else { assert run[i] == b[i - |a| + 1]; }
    }
  }

  lemma KeptBy(s': State, kept: Heap, run: seq<State>, s: State)
    requires Leads(run, s, s', kept)
    ensures Keeps(s'.heap, kept)
  {
    hide Next, Keeps;
    assert Keeps(run[|run| - 1].heap, kept);
  }

  lemma PastLonger(run: seq<State>, s: State, s': State, kept: Heap)
    requires Leads(run, s, s', kept)
    ensures |run| >= 1 && |s'.past| == |s.past| + |run| - 1
  {
  }

  /** A run that keeps some nodes keeps none in particular. */
  lemma KeepsNone(run: seq<State>, s: State, s': State, kept: Heap)
    requires Leads(run, s, s', kept)
    ensures Leads(run, s, s', map[])
  {
    hide Next;
  }

  lemma AnyKeepsNone(h: Heap)
    ensures Keeps(h, map[])
  {
  }

  /** The head leads to `succ`, which is null or not below the key; a search starts at the bottom level. */
  ghost predicate Front(s: State, succ: Addr, key: Bytes) {
    && HasLevel(s.heap, HEAD, 0) && s.heap[HEAD].forward[0] == succ && s.level == 1 && |s.past| > 0
    && (succ != NULL ==> succ in s.heap && succ != HEAD && !LexLess(s.heap[succ].key, key))
  }

  /** A thread after a search that has met `pred` last and `succs` above it. */
  ghost predicate Searched(th: Thread, was: Thread, call: Call, began: nat, pred: Addr, succs: seq<Addr>) {
    && th.pc == Decide && th.call == call && th.pred == pred && th.preds == [pred, HEAD] && th.succs == succs
    && th.locks == was.locks && th.result == [] && !th.ret && th.began == began
  }

  /** The call begins and reads current_level_. */
  lemma StartRun(s: State, t: Tid, call: Call, kept: Heap) returns (run: seq<State>, s': State)
    requires At(s, t, Idle) && !call.Snapshot? && (call.Scan? ==> !LexLess(call.end, call.key))
    requires 1 <= s.level && |s.past| > 0 && Keeps(s.heap, kept)
    ensures Leads(run, s, s', kept) && s'.heap == s.heap && s'.level == s.level
    ensures t in s'.threads && s'.threads == s.threads[t := s'.threads[t]]
    ensures var th := s'.threads[t];
            && th.pc == Descend && th.call == call && th.level == s.level && th.pred == HEAD && th.found == None
            && th.preds == [HEAD, HEAD] && th.succs == [NULL, NULL] && th.locks == s.threads[t].locks
            && th.result == [] && !th.ret && th.began == |s.past| - 1
  {
    hide Next, Keeps, Leads, LexLess;
    Stay(s, kept);
    var s1 := Invoked(s, t, call);
    Go([s], s, s, t, s1, s.heap, s.level, s1.threads[t], kept);
    s' := Started(s1, t);
    Go([s] + [s1], s, s1, t, s', s.heap, s.level, s'.threads[t], kept);
    run := [s] + [s1] + [s'];
  }

  /** The search that meets nothing below its key but the head. */
  lemma SearchRun(s: State, t: Tid, call: Call, succ: Addr, kept: Heap) returns (run: seq<State>, s': State)
    requires At(s, t, Idle) && !call.Snapshot? && (call.Scan? ==> !LexLess(call.end, call.key))
    requires Front(s, succ, call.key) && Keeps(s.heap, kept)
    ensures Leads(run, s, s', kept) && s'.heap == s.heap && s'.level == 1
    ensures t in s'.threads && s'.threads == s.threads[t := s'.threads[t]]
    ensures Searched(s'.threads[t], s.threads[t], call, |s.past| - 1, HEAD, [succ, NULL])
    ensures s'.threads[t].found == if succ != NULL && !LexLess(call.key, s.heap[succ].key) then Some(0) else None
  {
    hide Next, Keeps, Leads, LexLess;
    var r, s1 := StartRun(s, t, call, kept);
    s' := Recorded(s1, t, 0, succ);
    Go(r, s, s1, t, s', s.heap, 1, s'.threads[t], kept);
    run := r + [s'];
  }

  /** Locking the one predecessor of a new node. */
  lemma LockRun(s: State, t: Tid, top: nat, p: Addr, kept: Heap) returns (run: seq<State>, s': State)
    requires At(s, t, Decide) && top < 2 && p in s.heap && s.heap[p].owner == None && Keeps(s.heap, kept) && p !in kept
    requires var th := s.threads[t]; th.call.Put? && th.found == None && |th.preds| == 2
    requires SortUnique(s.threads[t].preds[..top + 1]) == [p]
    ensures Leads(run, s, s', kept) && s'.level == s.level && s'.heap == s.heap[p := s.heap[p].(owner := Some(t))]
    ensures t in s'.threads && s'.threads == s.threads[t := s'.threads[t]]
    ensures var th := s.threads[t];
            s'.threads[t] == th.(pc := InsertPred, cont := InsertPred, level := 0, top := top, targets := [p],
                                 taken := 1, locks := th.locks + {p})
  {
    hide Next, Keeps, Leads;
    Stay(s, kept);
    var s1 := Decided(s, t, top, p);
    Go([s], s, s, t, s1, s.heap, s.level, s1.threads[t], kept);
    s' := Acquired(s1, t, p);
    KeepsSet(s.heap, p, s.heap[p].(owner := Some(t)), kept);
    Go([s] + [s1], s, s1, t, s', s'.heap, s.level, s'.threads[t], kept);
    run := [s] + [s1] + [s'];
  }

  /** Validating one level of an insertion. */
  lemma ValidateRun(s: State, t: Tid, p: Addr, n: Addr, kept: Heap) returns (run: seq<State>, s': State)
    requires At(s, t, InsertPred) && Keeps(s.heap, kept)
    requires var th := s.threads[t];
             && th.level < |th.preds| == |th.succs| && th.preds[th.level] == p && th.succs[th.level] == n
             && HasLevel(s.heap, p, th.level) && s.heap[p].forward[th.level] == n
    requires p != NULL && !s.heap[p].marked && (n != NULL ==> n in s.heap && !s.heap[n].marked)
    ensures Leads(run, s, s', kept) && s'.level == s.level && s'.heap == s.heap
    ensures t in s'.threads && s'.threads == s.threads[t := s'.threads[t]]
    ensures var th := s.threads[t];
            s'.threads[t] == if th.level == th.top then th.(pc := Alloc, level := 0)
                             else th.(pc := InsertPred, level := th.level + 1)
  {
    hide Next, Keeps, Leads;
    Stay(s, kept);
    var s1 := PredChecked(s, t, p);
    Go([s], s, s, t, s1, s.heap, s.level, s1.threads[t], kept);
    var s2 := SuccChecked(s1, t, n);
    Go([s] + [s1], s, s1, t, s2, s.heap, s.level, s2.threads[t], kept);
    s' := ForwardChecked(s2, t);
    Go([s] + [s1] + [s2], s, s2, t, s', s.heap, s.level, s'.threads[t], kept);
    run := [s] + [s1] + [s2] + [s'];
  }

  /** Completing and counting the node and raising current_level_. */
  lemma CountRun(s: State, t: Tid, a: Addr, kept: Heap) returns (run: seq<State>, s': State)
    requires At(s, t, SetLinked) && a in s.heap && s.threads[t].node == a && Keeps(s.heap, kept) && a !in kept
    ensures Leads(run, s, s', kept) && s'.level == if s.threads[t].top < s.level then s.level else s.threads[t].top + 1
    ensures s'.heap == s.heap[a := s.heap[a].(fullyLinked := true)]
    ensures t in s'.threads && s'.threads == s.threads[t := s'.threads[t]]
    ensures s'.threads[t].pc == Release && s'.threads[t].cont == Done && s'.threads[t].locks == s.threads[t].locks
  {
    hide Next, Keeps, Leads;
    Stay(s, kept);
    var h := s.heap[a := s.heap[a].(fullyLinked := true)];
    KeepsSet(s.heap, a, s.heap[a].(fullyLinked := true), kept);
    var s1 := Completed(s, t);
    Go([s], s, s, t, s1, h, s.level, s1.threads[t], kept);
    var s2 := Counted(s1, t);
    Go([s] + [s1], s, s1, t, s2, h, s.level, s2.threads[t], kept);
    var s3 := LevelLoaded(s2, t);
    Go([s] + [s1] + [s2], s, s2, t, s3, h, s.level, s3.threads[t], kept);
    s' := LevelRaised(s3, t);
    Go([s] + [s1] + [s2] + [s3], s, s3, t, s', h, s'.level, s'.threads[t], kept);
    run := [s] + [s1] + [s2] + [s3] + [s'];
  }

  /** Releasing the last mutex and returning. */
  lemma LeaveRun(s: State, t: Tid, p: Addr, kept: Heap) returns (run: seq<State>, s': State)
    requires At(s, t, Release) && p in s.heap && Keeps(s.heap, kept) && p !in kept
    requires s.threads[t].cont == Done && s.threads[t].locks == {p}
    ensures Leads(run, s, s', kept) && s'.level == s.level && s'.heap == s.heap[p := s.heap[p].(owner := None)]
    ensures t in s'.threads && s'.threads == s.threads[t := s'.threads[t]]
    ensures s'.threads[t].pc == Idle && s'.threads[t].locks == {}
  {
    hide Next, Keeps, Leads;
    Stay(s, kept);
    KeepsSet(s.heap, p, s.heap[p].(owner := None), kept);
    var s1 := Released(s, t, p);
    Go([s], s, s, t, s1, s1.heap, s.level, s1.threads[t], kept);
    s' := Returned(s1, t);
    Go([s] + [s1], s, s1, t, s', s1.heap, s.level, s'.threads[t], kept);
    run := [s] + [s1] + [s'];
  }

  /** What follows the linking of a node. */
  lemma FinishRun(s: State, t: Tid, p: Addr, a: Addr, kept: Heap) returns (run: seq<State>, s': State)
    requires At(s, t, SetLinked) && p in s.heap && a in s.heap && a != p
    requires Keeps(s.heap, kept) && p !in kept && a !in kept
    requires var th := s.threads[t]; th.node == a && th.locks == {p}
    ensures Leads(run, s, s', kept) && s'.level == if s.threads[t].top < s.level then s.level else s.threads[t].top + 1
    ensures s'.heap == s.heap[a := s.heap[a].(fullyLinked := true)][p := s.heap[p].(owner := None)]
    ensures t in s'.threads && s'.threads == s.threads[t := s'.threads[t]]
    ensures s'.threads[t].pc == Idle && s'.threads[t].locks == {}
  {
    hide Keeps, Leads;
    var r1, s1 := CountRun(s, t, a, kept);
    KeptBy(s1, kept, r1, s);
    var r2, s2 := LeaveRun(s1, t, p, kept);
    Join(r1, r2, s, s1, s2, kept);
    run, s' := r1 + r2[1..], s2;
  }

  /** The node a finished Put leaves behind. */
  function PutNode(key: Bytes, value: Bytes, succs: seq<Addr>, preds: seq<Addr>, t: Tid): Node
    requires |succs| > 0
  {
    Node(key, value, |succs| - 1, succs, false, true, None, |succs|, Some(t), preds)
  }

  /** The search has found the place of a new node: behind `p`, in front of `n`. */
  ghost predicate Placed(h: Heap, th: Thread, p: Addr, n: Addr) {
    && th.call.Put? && th.found == None && |th.preds| == |th.succs| == 2 && th.preds[0] == p && th.succs[0] == n
    && HasLevel(h, p, 0) && h[p].forward[0] == n && !h[p].marked && p != NULL
    && (n != NULL ==> n in h && n != p && !h[n].marked)
  }

  /** Locking and validating for a node of height 1. */
  lemma CheckRun(s: State, t: Tid, p: Addr, n: Addr, kept: Heap) returns (run: seq<State>, s': State)
    requires At(s, t, Decide) && Placed(s.heap, s.threads[t], p, n) && s.heap[p].owner == None
    requires Keeps(s.heap, kept) && p !in kept
    ensures Leads(run, s, s', kept) && s'.level == s.level && s'.heap == s.heap[p := s.heap[p].(owner := Some(t))]
    ensures t in s'.threads && s'.threads == s.threads[t := s'.threads[t]]
    ensures var th, th' := s.threads[t], s'.threads[t];
            && th'.pc == Alloc && th'.call == th.call && th'.preds == th.preds && th'.succs == th.succs
            && th'.top == 0 && th'.locks == th.locks + {p}
  {
    hide Next, Leads;
    var th := s.threads[t];
    assert th.preds[..1] == [p] && [p][1..] == [] && SortUnique([p]) == [p];
    var r1, s1 := LockRun(s, t, 0, p, kept);
    KeptBy(s1, kept, r1, s);
    hide Keeps;
    var r2, s2 := ValidateRun(s1, t, p, n, kept);
    Join(r1, r2, s, s1, s2, kept);
    run, s' := r1 + r2[1..], s2;
  }

  /** Allocating, linking and finishing a node of height 1. */
  lemma SpliceRun(s: State, t: Tid, p: Addr, n: Addr, a: Addr, kept: Heap) returns (run: seq<State>, s': State)
    requires At(s, t, Alloc) && a !in s.heap && a != NULL && 1 <= s.level
    requires Keeps(s.heap, kept) && p !in kept && a !in kept
    requires var th := s.threads[t];
             && th.call.Put? && |th.preds| == |th.succs| == 2 && th.preds[0] == p && th.succs[0] == n
             && th.top == 0 && th.locks == {p}
    requires HasLevel(s.heap, p, 0)
    ensures Leads(run, s, s', kept) && s'.level == s.level
    ensures var call := s.threads[t].call;
            s'.heap == s.heap[p := s.heap[p].(forward := s.heap[p].forward[0 := a], owner := None)]
                             [a := PutNode(call.key, call.value, [n], [p], t)]
    ensures t in s'.threads && s'.threads == s.threads[t := s'.threads[t]]
    ensures s'.threads[t].pc == Idle && s'.threads[t].locks == {}
  {
    hide Next, Leads, Keeps;
    var th := s.threads[t];
    assert th.preds[..1] == [p] && th.succs[..1] == [n];
    Stay(s, kept);
    var s1 := Allocated(s, t, a);
    KeepsSet(s.heap, a, s1.heap[a], kept);
    Go([s], s, s, t, s1, s1.heap, s.level, s1.threads[t], kept);
    var s2 := Linked(s1, t, p, a);
    KeepsSet(s1.heap, p, s2.heap[p], kept);
    KeepsSet(s1.heap[p := s2.heap[p]], a, s2.heap[a], kept);
    Go([s] + [s1], s, s1, t, s2, s2.heap, s.level, s2.threads[t], kept);
    var r3, s3 := FinishRun(s2, t, p, a, kept);
    Join([s] + [s1] + [s2], r3, s, s2, s3, kept);
    run, s' := ([s] + [s1] + [s2]) + r3[1..], s3;
  }

  /** A Put of height 1 from the end of its search on. */
  lemma InsertRun(s: State, t: Tid, p: Addr, n: Addr, a: Addr, kept: Heap) returns (run: seq<State>, s': State)
    requires At(s, t, Decide) && Placed(s.heap, s.threads[t], p, n) && s.heap[p].owner == None
    requires Keeps(s.heap, kept) && p !in kept && a !in kept && a !in s.heap && a != NULL && 1 <= s.level
    requires s.threads[t].locks == {}
    ensures Leads(run, s, s', kept) && s'.level == s.level
    ensures var call := s.threads[t].call;
            s'.heap == s.heap[p := s.heap[p].(forward := s.heap[p].forward[0 := a])]
                             [a := PutNode(call.key, call.value, [n], [p], t)]
    ensures t in s'.threads && s'.threads == s.threads[t := s'.threads[t]]
    ensures s'.threads[t].pc == Idle && s'.threads[t].locks == {}
  {
    hide Leads, Keeps;
    var r1, s1 := CheckRun(s, t, p, n, kept);
    KeptBy(s1, kept, r1, s);
    var r2, s2 := SpliceRun(s1, t, p, n, a, kept);
    Join(r1, r2, s, s1, s2, kept);
    run, s' := r1 + r2[1..], s2;
  }

  /** An empty list and two threads. */
  function Begin(): State {
    var idle := Thread(Idle, Idle, Snapshot([]), 0, NULL, NULL, [], [], None, [], 0, {}, NULL, 0, NULL, 0,
                       [], false, 0, 0, None);
    State(EmptyHeap(Duo()), 0, 1, map[0 := idle, 1 := idle], [EmptyHeap(Duo())], [])
  }

  lemma BeginReady(key: Bytes)
    ensures Front(Begin(), NULL, key) && At(Begin(), 0, Idle) && At(Begin(), 1, Idle) && Begin().heap.Keys == {HEAD}
            && Keeps(Begin().heap, map[])
    ensures var head := Begin().heap[HEAD]; head.forward == [NULL, NULL] && head.owner == None && !head.marked
    ensures Init(Duo(), Begin())
  {
    assert seq(2, _ => NULL) == [NULL, NULL];
  }

  lemma IsARun(run: seq<State>, s: State)
    requires Leads(run, Begin(), s, map[])
    ensures ValidConfig(Duo()) && IsRun(Duo(), run) && run[|run| - 1] == s
  {
    hide Next, Init;
    BeginReady([]);
    DuoValid();
  }
}
