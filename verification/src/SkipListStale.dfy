/**
 * A run that leaves current_level_ too low. Thread 1 deletes a short node and has found no
 * use of the upper level when thread 0 links two tall nodes; then thread 1 stores the level
 * it has found. From there on a Delete of the second tall node, alone, tries for ever.
 */
module SkipListStale {
  import opened Wrappers
  import opened Bytes
  import opened Orders
  import opened SkipListMachine
  import opened SkipListHeap
  import opened SkipListHistory
  import opened SkipListMoves
  import opened SkipListLone

  // ------------------------------------------------------------------ parts of the run

  /** The search starts and moves on to `p`. */
  lemma AdvanceRun(s: State, t: Tid, call: Call, p: Addr) returns (run: seq<State>, s': State)
    requires At(s, t, Idle) && (call.Put? || call.Delete?) && s.level == 1 && |s.past| > 0
    requires HasLevel(s.heap, HEAD, 0) && s.heap[HEAD].forward[0] == p && p != NULL
    requires p in s.heap && LexLess(s.heap[p].key, call.key)
    ensures Leads(run, s, s', map[]) && s'.heap == s.heap && s'.level == 1
    ensures t in s'.threads && s'.threads == s.threads[t := s'.threads[t]]
    ensures var th := s'.threads[t];
            && th.pc == Descend && th.call == call && th.level == 1 && th.pred == p && th.found == None
            && th.preds == [HEAD, HEAD] && th.succs == [NULL, NULL] && th.locks == s.threads[t].locks
            && th.result == [] && !th.ret && th.began == |s.past| - 1
  {
    hide Next, Keeps, Leads, LexLess;
    AnyKeepsNone(s.heap);
    var r, s1 := StartRun(s, t, call, map[]);
    s' := Advanced(s1, t, p);
    Go(r, s, s1, t, s', s.heap, 1, s'.threads[t], map[]);
    run := r + [s'];
  }

  /** The search at the bottom level that moves on to `p`. */
  lemma SearchPast(s: State, t: Tid, call: Call, p: Addr, succ: Addr) returns (run: seq<State>, s': State)
    requires At(s, t, Idle) && (call.Put? || call.Delete?) && s.level == 1 && |s.past| > 0
    requires HasLevel(s.heap, HEAD, 0) && s.heap[HEAD].forward[0] == p && p != NULL
    requires HasLevel(s.heap, p, 0) && s.heap[p].forward[0] == succ && LexLess(s.heap[p].key, call.key)
    requires succ != NULL ==> succ in s.heap && !LexLess(s.heap[succ].key, call.key)
    ensures Leads(run, s, s', map[]) && s'.heap == s.heap && s'.level == 1
    ensures t in s'.threads && s'.threads == s.threads[t := s'.threads[t]]
    ensures Searched(s'.threads[t], s.threads[t], call, |s.past| - 1, p, [succ, NULL])
    ensures s'.threads[t].found == if succ != NULL && !LexLess(call.key, s.heap[succ].key) then Some(0) else None
  {
    hide Next, Keeps, Leads, LexLess;
    AnyKeepsNone(s.heap);
    var r, s1 := AdvanceRun(s, t, call, p);
    s' := Recorded(s1, t, 0, succ);
    Go(r, s, s1, t, s', s.heap, 1, s'.threads[t], map[]);
    run := r + [s'];
  }

  /** The search at both levels that stays at the head. */
  lemma SearchTwice(s: State, t: Tid, call: Call, n: Addr) returns (run: seq<State>, s': State)
    requires At(s, t, Idle) && call.Put? && s.level == 2 && |s.past| > 0
    requires HEAD in s.heap && s.heap[HEAD].forward == [n, n] && n != NULL && n in s.heap
    requires LexLess(call.key, s.heap[n].key) && !LexLess(s.heap[n].key, call.key)
    ensures Leads(run, s, s', map[]) && s'.heap == s.heap && s'.level == 2
    ensures t in s'.threads && s'.threads == s.threads[t := s'.threads[t]]
    ensures Searched(s'.threads[t], s.threads[t], call, |s.past| - 1, HEAD, [n, n]) && s'.threads[t].found == None
  {
    hide Next, Keeps, Leads, LexLess;
    AnyKeepsNone(s.heap);
    var r, s1 := StartRun(s, t, call, map[]);
    var s2 := Recorded(s1, t, 1, n);
    Go(r, s, s1, t, s2, s.heap, 2, s2.threads[t], map[]);
    s' := Recorded(s2, t, 0, n);
    Go(r + [s2], s, s2, t, s', s.heap, 2, s'.threads[t], map[]);
    run := r + [s2] + [s'];
  }

  /** The search has found the place of a tall node: behind the head at both levels. */
  ghost predicate TallPlaced(h: Heap, th: Thread, n0: Addr, n1: Addr) {
    && th.call.Put? && th.found == None && th.preds == [HEAD, HEAD] && th.succs == [n0, n1]
    && HEAD in h && h[HEAD].forward == [n0, n1] && !h[HEAD].marked
    && (n0 != NULL ==> n0 in h && n0 != HEAD && !h[n0].marked)
    && (n1 != NULL ==> n1 in h && n1 != HEAD && !h[n1].marked)
  }

  lemma CheckTall(s: State, t: Tid, n0: Addr, n1: Addr) returns (run: seq<State>, s': State)
    requires At(s, t, Decide) && TallPlaced(s.heap, s.threads[t], n0, n1) && s.heap[HEAD].owner == None
    ensures Leads(run, s, s', map[]) && s'.level == s.level
    ensures s'.heap == s.heap[HEAD := s.heap[HEAD].(owner := Some(t))]
    ensures t in s'.threads && s'.threads == s.threads[t := s'.threads[t]]
    ensures var th, th' := s.threads[t], s'.threads[t];
            && th'.pc == Alloc && th'.call == th.call && th'.preds == th.preds && th'.succs == th.succs
            && th'.top == 1 && th'.locks == th.locks + {HEAD}
  {
    hide Next, Leads, Keeps;
    var th := s.threads[t];
    assert th.preds[..2] == [HEAD, HEAD] && SortUnique([HEAD, HEAD]) == [HEAD] by { SortedTwins(HEAD); }
    AnyKeepsNone(s.heap);
    var r1, s1 := LockRun(s, t, 1, HEAD, map[]);
    AnyKeepsNone(s1.heap);
    var r2, s2 := ValidateRun(s1, t, HEAD, n0, map[]);
    var r3, s3 := ValidateRun(s2, t, HEAD, n1, map[]);
    Join(r1, r2, s, s1, s2, map[]);
    Join(r1 + r2[1..], r3, s, s2, s3, map[]);
    run, s' := r1 + r2[1..] + r3[1..], s3;
  }

  lemma SortedTwins(a: Addr)
    ensures SortUnique([a, a]) == [a]
  {
    assert [a, a][1..] == [a] && [a][1..] == [];
    assert SortUnique([a]) == [a];
  }

  lemma SpliceTall(s: State, t: Tid, n0: Addr, n1: Addr, a: Addr) returns (run: seq<State>, s': State)
    requires At(s, t, Alloc) && a !in s.heap && a != NULL
    requires HEAD in s.heap && s.heap[HEAD].forward == [n0, n1]
    requires var th := s.threads[t];
             && th.call.Put? && th.preds == [HEAD, HEAD] && th.succs == [n0, n1] && th.top == 1 && th.locks == {HEAD}
    ensures Leads(run, s, s', map[]) && s'.level == if s.level < 2 then 2 else s.level
    ensures var call := s.threads[t].call;
            s'.heap == s.heap[HEAD := s.heap[HEAD].(forward := [a, a], owner := None)]
                             [a := PutNode(call.key, call.value, [n0, n1], [HEAD, HEAD], t)]
    ensures t in s'.threads && s'.threads == s.threads[t := s'.threads[t]]
    ensures s'.threads[t].pc == Idle && s'.threads[t].locks == {}
  {
    hide Next, Leads, Keeps;
    var th := s.threads[t];
    assert th.preds[..2] == [HEAD, HEAD] && th.succs[..2] == [n0, n1];
    AnyKeepsNone(s.heap);
    Stay(s, map[]);
    var s1 := Allocated(s, t, a);
    AnyKeepsNone(s1.heap);
    Go([s], s, s, t, s1, s1.heap, s.level, s1.threads[t], map[]);
    var s2 := Linked(s1, t, HEAD, a);
    AnyKeepsNone(s2.heap);
    Go([s] + [s1], s, s1, t, s2, s2.heap, s.level, s2.threads[t], map[]);
    var s3 := Linked(s2, t, HEAD, a);
    AnyKeepsNone(s3.heap);
    Go([s] + [s1] + [s2], s, s2, t, s3, s3.heap, s.level, s3.threads[t], map[]);
    assert [n0, n1][0 := a][1 := a] == [a, a];
    var r4, s4 := FinishRun(s3, t, HEAD, a, map[]);
    Join([s] + [s1] + [s2] + [s3], r4, s, s3, s4, map[]);
    run, s' := ([s] + [s1] + [s2] + [s3]) + r4[1..], s4;
  }

  /** A Put of height 2 behind the head, from the end of its search on. */
  lemma InsertTall(s: State, t: Tid, n0: Addr, n1: Addr, a: Addr) returns (run: seq<State>, s': State)
    requires At(s, t, Decide) && TallPlaced(s.heap, s.threads[t], n0, n1) && s.heap[HEAD].owner == None
    requires s.threads[t].locks == {} && a !in s.heap && a != NULL
    ensures Leads(run, s, s', map[]) && s'.level == if s.level < 2 then 2 else s.level
    ensures var call := s.threads[t].call;
            s'.heap == s.heap[HEAD := s.heap[HEAD].(forward := [a, a])]
                             [a := PutNode(call.key, call.value, [n0, n1], [HEAD, HEAD], t)]
    ensures t in s'.threads && s'.threads == s.threads[t := s'.threads[t]]
    ensures s'.threads[t].pc == Idle && s'.threads[t].locks == {}
  {
    hide Leads;
    var r1, s1 := CheckTall(s, t, n0, n1);
    var r2, s2 := SpliceTall(s1, t, n0, n1, a);
    Join(r1, r2, s, s1, s2, map[]);
    run, s' := r1 + r2[1..], s2;
  }

  // ---------------------------------------------------------------------- the deletion

  /** The search of a Delete has found the short node `v` behind the short node `p`. */
  ghost predicate VictimPlaced(h: Heap, th: Thread, p: Addr, v: Addr) {
    && th.call.Delete? && th.preds == [p, HEAD] && |th.succs| == 2 && th.succs[0] == v && th.found == Some(0)
    && p != NULL && p < v && HasLevel(h, p, 0) && h[p].forward[0] == v && !h[p].marked
    && v in h && h[v].topLevel == 0 && |h[v].forward| == 1
    && h[v].fullyLinked && !h[v].marked && h[v].key == th.call.key
  }

  /** Locking predecessor and victim. */
  lemma LockVictim(s: State, t: Tid, p: Addr, v: Addr) returns (run: seq<State>, s': State)
    requires At(s, t, Decide) && VictimPlaced(s.heap, s.threads[t], p, v) && s.threads[t].locks == {}
    requires s.heap[p].owner == None && s.heap[v].owner == None
    ensures Leads(run, s, s', map[]) && s'.level == s.level
    ensures s'.heap == s.heap[p := s.heap[p].(owner := Some(t))][v := s.heap[v].(owner := Some(t))]
    ensures t in s'.threads && s'.threads == s.threads[t := s'.threads[t]]
    ensures var th, th' := s.threads[t], s'.threads[t];
            && th'.pc == VictimLinked && th'.call == th.call && th'.preds == th.preds && th'.node == v
            && th'.level == 0 && th'.top == 0 && th'.locks == {p, v}
  {
    hide Next, Leads, Keeps;
    var th := s.threads[t];
    assert th.preds[..1] + [v] == [p, v] && SortUnique([p, v]) == [p, v] by { SortedPair(p, v); }
    AnyKeepsNone(s.heap);
    Stay(s, map[]);
    var s1 := DecidedDelete(s, t, v, [p, v]);
    Go([s], s, s, t, s1, s.heap, s.level, s1.threads[t], map[]);
    var s2 := Acquired(s1, t, p);
    AnyKeepsNone(s2.heap);
    Go([s] + [s1], s, s1, t, s2, s2.heap, s.level, s2.threads[t], map[]);
    s' := Acquired(s2, t, v);
    AnyKeepsNone(s'.heap);
    Go([s] + [s1] + [s2], s, s2, t, s', s'.heap, s.level, s'.threads[t], map[]);
    run := [s] + [s1] + [s2] + [s'];
  }

  lemma SortedPair(a: Addr, b: Addr)
    requires a < b
    ensures SortUnique([a, b]) == [a, b]
  {
    assert [a, b][1..] == [b] && [b][1..] == [];
    assert SortUnique([b]) == [b];
  }

  /** Validating the victim. */
  lemma CheckVictim(s: State, t: Tid, p: Addr, v: Addr) returns (run: seq<State>, s': State)
    requires At(s, t, VictimLinked) && p != NULL && p != v && HasLevel(s.heap, p, 0)
    requires s.heap[p].forward[0] == v && !s.heap[p].marked && v in s.heap && s.heap[v].fullyLinked && !s.heap[v].marked
    requires var th := s.threads[t];
             && th.call.Delete? && th.preds == [p, HEAD] && th.node == v && th.level == 0 && th.top == 0
             && s.heap[v].key == th.call.key
    ensures Leads(run, s, s', map[]) && s'.level == s.level && s'.heap == s.heap
    ensures t in s'.threads && s'.threads == s.threads[t := s'.threads[t]]
    ensures s'.threads[t] == s.threads[t].(pc := Mark)
  {
    hide Next, Leads, Keeps;
    AnyKeepsNone(s.heap);
    Stay(s, map[]);
    var s1 := VictimSeen(s, t);
    Go([s], s, s, t, s1, s.heap, s.level, s1.threads[t], map[]);
    var s2 := VictimChecked(s1, t);
    Go([s] + [s1], s, s1, t, s2, s.heap, s.level, s2.threads[t], map[]);
    var s3 := DeletePredChecked(s2, t, p);
    Go([s] + [s1] + [s2], s, s2, t, s3, s.heap, s.level, s3.threads[t], map[]);
    s' := DeleteForwardChecked(s3, t);
    Go([s] + [s1] + [s2] + [s3], s, s3, t, s', s.heap, s.level, s'.threads[t], map[]);
    run := [s] + [s1] + [s2] + [s3] + [s'];
  }

  /** Marking and unlinking it. */
  lemma UnlinkRun(s: State, t: Tid, p: Addr, v: Addr) returns (run: seq<State>, s': State)
    requires At(s, t, Mark) && p != v && HasLevel(s.heap, p, 0) && v in s.heap && |s.heap[v].forward| == 1
    requires var th := s.threads[t]; th.preds == [p, HEAD] && th.node == v && th.top == 0
    ensures Leads(run, s, s', map[]) && s'.level == s.level
    ensures s'.heap.Keys == s.heap.Keys && forall n :: n in s.heap && n != p && n != v ==> s'.heap[n] == s.heap[n]
    ensures s'.heap[p] == s.heap[p].(forward := s.heap[p].forward[0 := s.heap[v].forward[0]])
    ensures t in s'.threads && s'.threads == s.threads[t := s'.threads[t]]
    ensures s'.threads[t].pc == SubSize && s'.threads[t].locks == s.threads[t].locks
  {
    hide Next, Leads, Keeps;
    AnyKeepsNone(s.heap);
    Stay(s, map[]);
    var s1 := Marked(s, t);
    AnyKeepsNone(s1.heap);
    Go([s], s, s, t, s1, s1.heap, s.level, s1.threads[t], map[]);
    var s2 := NextLoaded(s1, t);
    Go([s] + [s1], s, s1, t, s2, s1.heap, s.level, s2.threads[t], map[]);
    s' := Unlinked(s2, t, p, v);
    AnyKeepsNone(s'.heap);
    Go([s] + [s1] + [s2], s, s2, t, s', s'.heap, s.level, s'.threads[t], map[]);
    run := [s] + [s1] + [s2] + [s'];
  }

  /** Finding no use of the upper level. */
  lemma RecomputeRun(s: State, t: Tid) returns (run: seq<State>, s': State)
    requires At(s, t, SubSize) && HasLevel(s.heap, HEAD, 1) && s.heap[HEAD].forward[1] == NULL
    ensures Leads(run, s, s', map[]) && s'.level == s.level && s'.heap == s.heap
    ensures t in s'.threads && s'.threads == s.threads[t := s'.threads[t]]
    ensures s'.threads[t] == s.threads[t].(pc := StoreLevel, level := 1)
  {
    hide Next, Leads, Keeps;
    AnyKeepsNone(s.heap);
    Stay(s, map[]);
    var s1 := Discounted(s, t);
    Go([s], s, s, t, s1, s.heap, s.level, s1.threads[t], map[]);
    var s2 := Recomputed(s1, t);
    Go([s] + [s1], s, s1, t, s2, s.heap, s.level, s2.threads[t], map[]);
    s' := Recomputed(s2, t);
    Go([s] + [s1] + [s2], s, s2, t, s', s.heap, s.level, s'.threads[t], map[]);
    run := [s] + [s1] + [s2] + [s'];
  }

  /** Storing the level, unlocking and returning. */
  lemma StoreRun(s: State, t: Tid, p: Addr, v: Addr) returns (run: seq<State>, s': State)
    requires At(s, t, StoreLevel) && s.threads[t].level == 1 && s.threads[t].locks == {p, v} && p != v
    requires p in s.heap && v in s.heap
    ensures Leads(run, s, s', map[]) && s'.level == 1
    ensures s'.heap == s.heap[p := s.heap[p].(owner := None)][v := s.heap[v].(owner := None)]
    ensures t in s'.threads && s'.threads == s.threads[t := s'.threads[t]] && s'.threads[t].pc == Idle
  {
    hide Next, Leads, Keeps;
    AnyKeepsNone(s.heap);
    Stay(s, map[]);
    var s1 := LevelStored(s, t);
    Go([s], s, s, t, s1, s.heap, 1, s1.threads[t], map[]);
    var s2 := Released(s1, t, p);
    assert {p, v} - {p} == {v};
    AnyKeepsNone(s2.heap);
    Go([s] + [s1], s, s1, t, s2, s2.heap, 1, s2.threads[t], map[]);
    var r, s3 := LeaveRun(s2, t, v, map[]);
    Join([s] + [s1] + [s2], r, s, s2, s3, map[]);
    run, s' := ([s] + [s1] + [s2]) + r[1..], s3;
  }

  // --------------------------------------------------------------------------- the run

  const B: Bytes := [2]

  /** Two short nodes are linked, at addresses 2 and 3. */
  ghost predicate TwoShort(s: State) {
    && s.level == 1 && |s.past| > 0
    && At(s, 0, Idle) && s.threads[0].locks == {} && At(s, 1, Idle) && s.threads[1].locks == {}
    && s.threads.Keys == {0, 1} && s.heap.Keys == {HEAD, 2, 3}
    && s.heap[HEAD].forward == [2, NULL] && !s.heap[HEAD].marked && s.heap[HEAD].owner == None
    && s.heap[2] == PutNode([3], [], [NULL], [HEAD], 0).(forward := [3])
    && s.heap[3] == PutNode([4], [], [NULL], [2], 0)
  }

  /** Thread 1 has unlinked the second and is about to store level 1. */
  ghost predicate AboutToStore(s: State) {
    && At(s, 1, StoreLevel) && s.threads[1].level == 1 && s.threads[1].locks == {2, 3}
    && s.threads.Keys == {0, 1} && At(s, 0, Idle) && s.threads[0].locks == {} && |s.past| > 0
    && HEAD in s.heap && !s.heap[HEAD].marked && s.heap[HEAD].owner == None
    && 2 in s.heap && !s.heap[2].marked && s.heap[2].key == [3] && 3 in s.heap
  }

  ghost predicate OneShort(s: State) {
    AboutToStore(s) && s.level == 1 && s.heap[HEAD].forward == [2, NULL] && 4 !in s.heap && 5 !in s.heap
  }

  ghost predicate OneTall(s: State) {
    && AboutToStore(s) && s.level == 2 && s.heap[HEAD].forward == [4, 4] && 5 !in s.heap
    && 4 in s.heap && s.heap[4] == PutNode(B, [], [2, NULL], [HEAD, HEAD], 0)
  }

  ghost predicate TwoTall(s: State) {
    && AboutToStore(s) && s.level == 2 && s.heap[HEAD].forward == [5, 5]
    && 4 in s.heap && s.heap[4] == PutNode(B, [], [2, NULL], [HEAD, HEAD], 0)
  }

  /** Thread 0 puts the first short node. */
  lemma PutFirst() returns (run: seq<State>, s: State)
    ensures Leads(run, Begin(), s, map[]) && s.level == 1 && |s.past| > 0
    ensures s.threads.Keys == {0, 1} && s.threads[1] == Begin().threads[1]
    ensures s.threads[0].pc == Idle && s.threads[0].locks == {}
    ensures s.heap.Keys == {HEAD, 2} && s.heap[2] == PutNode([3], [], [NULL], [HEAD], 0)
    ensures var head := s.heap[HEAD]; head.forward == [2, NULL] && !head.marked && head.owner == None
  {
    hide Leads, Keeps, Front, Init;
    BeginReady([3]);
    var r1, s1 := SearchRun(Begin(), 0, Put([3], []), NULL, map[]);
    assert HasLevel(s1.heap, HEAD, 0);
    AnyKeepsNone(s1.heap);
    var r2, s2 := InsertRun(s1, 0, HEAD, NULL, 2, map[]);
    assert [NULL, NULL][0 := 2] == [2, NULL];
    Join(r1, r2, Begin(), s1, s2, map[]);
    run, s := r1 + r2[1..], s2;
    PastLonger(run, Begin(), s, map[]);
  }

  /** And the second one behind it. */
  lemma PutSecond() returns (run: seq<State>, s: State)
    ensures Leads(run, Begin(), s, map[]) && TwoShort(s)
  {
    hide Leads, Keeps;
    var r0, s0 := PutFirst();
    assert LexLess([3], [4]);
    var r1, s1 := SearchPast(s0, 0, Put([4], []), 2, NULL);
    AnyKeepsNone(s1.heap);
    var r2, s2 := InsertRun(s1, 0, 2, NULL, 3, map[]);
    assert [NULL][0 := 3] == [3];
    Join(r0, r1, Begin(), s0, s1, map[]);
    Join(r0 + r1[1..], r2, Begin(), s1, s2, map[]);
    run, s := r0 + r1[1..] + r2[1..], s2;
    PastLonger(run, Begin(), s, map[]);
  }

  /** Thread 1 has locked the second short node and its predecessor. */
  ghost predicate LockedSecond(s: State) {
    && s.level == 1 && |s.past| > 0 && At(s, 0, Idle) && s.threads[0].locks == {} && At(s, 1, VictimLinked)
    && s.threads.Keys == {0, 1} && s.heap.Keys == {HEAD, 2, 3}
    && s.heap[HEAD].forward == [2, NULL] && !s.heap[HEAD].marked && s.heap[HEAD].owner == None
    && s.heap[2] == PutNode([3], [], [NULL], [HEAD], 0).(forward := [3], owner := Some(1))
    && s.heap[3] == PutNode([4], [], [NULL], [2], 0).(owner := Some(1))
    && var th := s.threads[1];
       && th.call == Delete([4]) && th.preds == [2, HEAD] && th.node == 3 && th.level == 0 && th.top == 0
       && th.locks == {2, 3}
  }

  lemma LockSecond(s: State) returns (run: seq<State>, s': State)
    requires TwoShort(s)
    ensures Leads(run, s, s', map[]) && LockedSecond(s')
  {
    hide Leads;
    assert LexLess([3], [4]);
    LexIrreflexive([4]);
    var r1, s1 := SearchPast(s, 1, Delete([4]), 2, 3);
    hide LexLess;
    var r2, s2 := LockVictim(s1, 1, 2, 3);
    Join(r1, r2, s, s1, s2, map[]);
    run, s' := r1 + r2[1..], s2;
    PastLonger(run, s, s', map[]);
  }

  /** Thread 1 deletes the second short node up to the store of the level. */
  lemma DeleteSecond(s: State) returns (run: seq<State>, s': State)
    requires LockedSecond(s)
    ensures Leads(run, s, s', map[]) && OneShort(s')
  {
    hide Leads;
    var r1, s1 := CheckVictim(s, 1, 2, 3);
    var r2, s2 := UnlinkRun(s1, 1, 2, 3);
    var r3, s3 := RecomputeRun(s2, 1);
    Join(r1, r2, s, s1, s2, map[]);
    Join(r1 + r2[1..], r3, s, s2, s3, map[]);
    run, s' := r1 + r2[1..] + r3[1..], s3;
    PastLonger(run, s, s', map[]);
  }

  /** Thread 0 puts b with height 2. */
  lemma PutB(s: State) returns (run: seq<State>, s': State)
    requires OneShort(s)
    ensures Leads(run, s, s', map[]) && OneTall(s')
  {
    hide Leads;
    assert LexLess([2], [3]) && !LexLess([3], [2]);
    AnyKeepsNone(s.heap);
    var r1, s1 := SearchRun(s, 0, Put(B, []), 2, map[]);
    assert TallPlaced(s1.heap, s1.threads[0], 2, NULL) && s1.threads[0].locks == {};
    hide TallPlaced, Searched;
    var r2, s2 := InsertTall(s1, 0, 2, NULL, 4);
    Join(r1, r2, s, s1, s2, map[]);
    run, s' := r1 + r2[1..], s2;
    PastLonger(run, s, s', map[]);
  }

  /** And a smaller key, also with height 2. */
  lemma PutA(s: State) returns (run: seq<State>, s': State)
    requires OneTall(s)
    ensures Leads(run, s, s', map[]) && TwoTall(s')
  {
    hide Leads;
    var r1, s1 := SearchA(s);
    var r2, s2 := InsertTall(s1, 0, 4, 4, 5);
    Join(r1, r2, s, s1, s2, map[]);
    run, s' := r1 + r2[1..], s2;
    PastLonger(run, s, s', map[]);
  }

  lemma SearchA(s: State) returns (run: seq<State>, s': State)
    requires OneTall(s)
    ensures Leads(run, s, s', map[]) && s'.heap == s.heap && s'.level == 2
    ensures 0 in s'.threads && s'.threads == s.threads[0 := s'.threads[0]]
    ensures At(s', 0, Decide) && TallPlaced(s'.heap, s'.threads[0], 4, 4) && s'.threads[0].locks == {}
  {
    hide Leads;
    assert LexLess([1], [2]) && !LexLess([2], [1]);
    run, s' := SearchTwice(s, 0, Put([1], []), 4);
  }

  /** current_level_ is 1 although the head leads to address 5 at level 1, and not to b, which is that tall. */
  ghost predicate TooLow(s: State) {
    && s.level == 1 && Live(s.heap, 4) && s.heap[4].key == B && s.heap[4].topLevel == 1
    && HEAD in s.heap && s.heap[HEAD].forward == [5, 5]
  }

  /** Thread 1 stores level 1 and returns; thread 0 asks to delete b. */
  lemma StoresLate(s: State) returns (run: seq<State>, s': State)
    requires TwoTall(s)
    ensures Leads(run, s, s', map[]) && TooLow(s') && Alone(s', 0)
    ensures At(s', 0, ReadLevel) && s'.threads[0].call == Delete(B)
  {
    hide Leads;
    var r1, s1 := StoreRun(s, 1, 2, 3);
    PastLonger(r1, s, s1, map[]);
    s' := Invoked(s1, 0, Delete(B));
    AnyKeepsNone(s1.heap);
    Stay(s1, map[]);
    Go([s1], s1, s1, 0, s', s1.heap, 1, s'.threads[0], map[]);
    Join(r1, [s1] + [s'], s, s1, s', map[]);
    run := r1 + ([s1] + [s'])[1..];
  }

  lemma StaleLevel() returns (run: seq<State>)
    ensures |run| >= 1 && IsRun(Duo(), run)
    ensures var s := run[|run| - 1];
            TooLow(s) && Alone(s, 0) && At(s, 0, ReadLevel) && s.threads[0].call == Delete(B)
  {
    hide Leads, TwoShort, LockedSecond, OneShort, OneTall, TwoTall, TooLow;
    var r1, s1 := PutSecond();
    var r2, s2 := LockSecond(s1);
    var r3, s3 := DeleteSecond(s2);
    var r4, s4 := PutB(s3);
    var r5, s5 := PutA(s4);
    var r6, s6 := StoresLate(s5);
    Join(r1, r2, Begin(), s1, s2, map[]);
    Join(r1 + r2[1..], r3, Begin(), s2, s3, map[]);
    Join(r1 + r2[1..] + r3[1..], r4, Begin(), s3, s4, map[]);
    Join(r1 + r2[1..] + r3[1..] + r4[1..], r5, Begin(), s4, s5, map[]);
    Join(r1 + r2[1..] + r3[1..] + r4[1..] + r5[1..], r6, Begin(), s5, s6, map[]);
    run := r1 + r2[1..] + r3[1..] + r4[1..] + r5[1..] + r6[1..];
    IsARun(run, s6);
  }

  /** Where current_level_ is that low, the Delete never returns while it runs alone. */
  lemma NeverReturns(run: seq<State>, i: nat, k: nat)
    requires ValidConfig(Duo()) && IsRun(Duo(), run) && AloneFrom(run, i, k, 0) && TooLow(run[i])
    requires At(run[i], 0, ReadLevel) && run[i].threads[0].call == Delete(B)
    ensures run[k].threads[0].pc != Done && !NoLiveKey(run[k].heap, B)
  {
    hide IsRun, Alone, Live;
    LoneDelete(Duo(), run, i, k, 0, 4);
    assert HasLevel(run[i].heap, HEAD, 1);
  }

  /**
   * There is a run after which a Delete of a key in the map, with no other call in flight,
   * never returns, however long it runs.
   */
  lemma DeleteLivelocks() returns (run: seq<State>, i: nat)
    ensures ValidConfig(Duo()) && IsRun(Duo(), run) && i == |run| - 1
    ensures Alone(run[i], 0) && run[i].threads[0].call == Delete(B) && !NoLiveKey(run[i].heap, B)
    ensures forall longer: seq<State>, k: nat :: run <= longer && IsRun(Duo(), longer) && AloneFrom(longer, i, k, 0) ==>
              longer[k].threads[0].pc != Done && !NoLiveKey(longer[k].heap, B)
  {
    hide IsRun, TooLow, NoLiveKey;
    DuoValid();
    run := StaleLevel();
    i := |run| - 1;
    assert !NoLiveKey(run[i].heap, B) by { BLives(run[i]); }
    forall longer: seq<State>, k: nat | run <= longer && IsRun(Duo(), longer) && AloneFrom(longer, i, k, 0)
      ensures longer[k].threads[0].pc != Done && !NoLiveKey(longer[k].heap, B)
    {
      assert longer[i] == run[i];
      NeverReturns(longer, i, k);
    }
  }

  lemma BLives(s: State)
    requires TooLow(s)
    ensures !NoLiveKey(s.heap, B)
  {
    assert Live(s.heap, 4) && s.heap[4].key == B;
  }
}
