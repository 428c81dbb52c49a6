/**
 * The races that lock-free readers lose, as runs. A reader has finished its search for b
 * and stands at the head, Put(a) links a smaller key behind the head, and the reader
 * loads the pointer of the head again: Get(b) answers false although b is in the map all
 * the time, and Scan(b, b) answers a.
 */
module SkipListRace {
  import opened Wrappers
  import opened Bytes
  import opened Orders
  import opened SkipListMachine
  import opened SkipListHeap
  import opened SkipListHistory
  import opened SkipListMoves
  import opened SkipListReaders

  function NodeOfB(): Node { PutNode([2], [], [NULL], [HEAD], 0) }

  /** Thread 0 is idle, the head leads to the node of b, at address 2, and address 3 is free. */
  ghost predicate HasB(s: State) {
    && s.level == 1 && |s.past| > 0 && At(s, 0, Idle) && s.threads[0].locks == {} && 1 in s.threads
    && HEAD in s.heap && 2 in s.heap && 3 !in s.heap && s.heap[2] == NodeOfB()
    && s.heap[HEAD].forward == [2, NULL] && !s.heap[HEAD].marked && s.heap[HEAD].owner == None
  }

  /** Thread 0 puts b. */
  lemma PutB() returns (run: seq<State>, s: State)
    ensures Leads(run, Begin(), s, map[]) && HasB(s) && s.threads[1] == Begin().threads[1]
  {
    hide Leads, Keeps, Front, Init;
    BeginReady([2]);
    var r1, s1 := SearchRun(Begin(), 0, Put([2], []), NULL, map[]);
    assert HasLevel(s1.heap, HEAD, 0);
    KeptBy(s1, map[], r1, Begin());
    var r2, s2 := InsertRun(s1, 0, HEAD, NULL, 2, map[]);
    assert [NULL, NULL][0 := 2] == [2, NULL];
    Join(r1, r2, Begin(), s1, s2, map[]);
    run, s := r1 + r2[1..], s2;
    PastLonger(run, Begin(), s, map[]);
  }

  /** Nodes that stay as they are: at most that of b. */
  ghost predicate OnlyB(kept: Heap) { kept == map[] || kept == map[2 := NodeOfB()] }

  lemma KeepsB(h: Heap, kept: Heap)
    requires 2 in h && h[2] == NodeOfB() && OnlyB(kept)
    ensures Keeps(h, kept)
  {
  }

  /** Thread 1 searches for b and stands at the head. */
  lemma ReaderSearches(s: State, call: Call, kept: Heap) returns (run: seq<State>, s': State)
    requires HasB(s) && s.threads[1].pc == Idle && s.threads[1].locks == {} && OnlyB(kept)
    requires call == Get([2]) || call == Scan([2], [2])
    ensures Leads(run, s, s', kept) && HasB(s')
    ensures var th := s'.threads[1];
            && th.pc == WalkLoad && th.call == call && th.pred == HEAD && !th.ret && th.result == []
            && th.began == |s.past| - 1 && th.locks == {}
  {
    hide Leads, Keeps;
    KeepsB(s.heap, kept);
    LexIrreflexive([2]);
    var r, s1 := SearchRun(s, 1, call, 2, kept);
    s' := DecidedRead(s1, 1);
    Go(r, s, s1, 1, s', s.heap, 1, s'.threads[1], kept);
    run := r + [s'];
  }

  /** The head leads to a, and a to b. */
  ghost predicate HasBoth(h: Heap) {
    && HEAD in h && h[HEAD].forward == [3, NULL] && 2 in h && h[2] == NodeOfB()
    && 3 in h && h[3] == PutNode([1], [], [2], [HEAD], 0)
  }

  /** Thread 0 puts a, behind the head. */
  lemma PutA(s: State, kept: Heap) returns (run: seq<State>, s': State)
    requires HasB(s) && OnlyB(kept)
    ensures Leads(run, s, s', kept) && s'.level == 1
    ensures HasBoth(s'.heap) && 1 in s'.threads && s'.threads[1] == s.threads[1]
  {
    hide Leads, Keeps;
    KeepsB(s.heap, kept);
    assert LexLess([1], [2]) && !LexLess([2], [1]);
    var r1, s1 := SearchRun(s, 0, Put([1], []), 2, kept);
    KeptBy(s1, kept, r1, s);
    var r2, s2 := InsertRun(s1, 0, HEAD, 2, 3, kept);
    Join(r1, r2, s, s1, s2, kept);
    run, s' := r1 + r2[1..], s2;
  }

  // ------------------------------------------------------------------------------ Get

  /** What the run shows: thread 0 has put b and then a, thread 1 has asked for b. */
  ghost predicate Missed(run: seq<State>, i: nat, b: Bytes) {
    && ValidConfig(Duo()) && IsRun(Duo(), run) && i < |run| && 1 in run[i].threads
    && var th := run[i].threads[1];
       th.pc == Done && th.call == Get(b) && !th.ret && PresentThroughout(run, th.began, i, b)
  }

  /**
   * Get is not linearizable: there is a run in which it answers false although its key is
   * in the map from before the call until after it.
   */
  lemma GetCanMiss() returns (run: seq<State>, i: nat)
    ensures Missed(run, i, [2])
  {
    hide Leads, Keeps, Moves;
    var kept := map[2 := NodeOfB()];
    var r1, s1 := PutB();
    var r2, s2 := ReaderSearches(s1, Get([2]), kept);
    var r3, s3 := PutA(s2, kept);
    Join(r2, r3, s1, s2, s3, kept);
    var s4 := MissesB(r2 + r3[1..], s1, s3, kept);
    run, i := Assemble(r1, s1, r2 + r3[1..] + [s4], s4);
  }

  lemma MissesB(run: seq<State>, s: State, s1: State, kept: Heap) returns (s': State)
    requires Leads(run, s, s1, kept) && At(s1, 1, WalkLoad) && HasBoth(s1.heap)
    requires var th := s1.threads[1]; th.call == Get([2]) && th.pred == HEAD && !th.ret
    ensures Leads(run + [s'], s, s', kept) && 1 in s'.threads
    ensures s'.threads[1] == s1.threads[1].(pc := Done, cur := 3)
  {
    hide Next, Keeps;
    assert LexLess([1], [2]);
    s' := Loaded(s1, 1, 3);
    assert Keeps(run[|run| - 1].heap, kept);
  }

  lemma Assemble(before: seq<State>, s: State, during: seq<State>, s': State) returns (run: seq<State>, i: nat)
    requires Leads(before, Begin(), s, map[]) && Leads(during, s, s', map[2 := NodeOfB()])
    requires 1 in s'.threads
    requires var th := s'.threads[1]; th.pc == Done && th.call == Get([2]) && !th.ret && th.began == |s.past| - 1
    ensures Missed(run, i, [2])
  {
    run, i := before + during[1..], |before| + |during| - 2;
    assert |Begin().past| == 1;
    KeepsNone(during, s, s', map[2 := NodeOfB()]);
    Join(before, during, Begin(), s, s', map[]);
    BeginReady([2]);
    DuoValid();
    hide Next, Init;
    forall j | |before| - 1 <= j <= i ensures !NoLiveKey(run[j].heap, [2]) {
      assert run[j] == during[j - |before| + 1];
      BLives(during[j - |before| + 1].heap);
    }
  }

  lemma BLives(h: Heap)
    requires Keeps(h, map[2 := NodeOfB()])
    ensures !NoLiveKey(h, [2])
  {
    assert Live(h, 2) && h[2].key == [2];
  }

  // ----------------------------------------------------------------------------- Scan

  /** A Scan loads the next node and looks whether it is live. */
  lemma LookRun(s: State, t: Tid, n: Addr) returns (run: seq<State>, s': State)
    requires At(s, t, WalkLoad) && s.threads[t].call.Scan?
    requires HasLevel(s.heap, s.threads[t].pred, 0) && s.heap[s.threads[t].pred].forward[0] == n
    requires n != NULL && n in s.heap && s.heap[n].fullyLinked && !s.heap[n].marked
    requires !LexLess(s.threads[t].call.end, s.heap[n].key)
    ensures Leads(run, s, s', map[]) && s'.heap == s.heap && t in s'.threads
    ensures var th := s.threads[t];
            s'.threads[t] == th.(pc := Acquire, cur := n, cont := WalkMarkedAgain, targets := [n], taken := 0)
  {
    hide Next, Leads, Keeps, LexLess;
    AnyKeepsNone(s.heap);
    Stay(s, map[]);
    var s1 := Loaded(s, t, n);
    Go([s], s, s, t, s1, s.heap, s.level, s1.threads[t], map[]);
    var s2 := SeenUnmarked(s1, t);
    Go([s] + [s1], s, s1, t, s2, s.heap, s.level, s2.threads[t], map[]);
    s' := SeenLinked(s2, t);
    Go([s] + [s1] + [s2], s, s2, t, s', s.heap, s.level, s'.threads[t], map[]);
    run := [s] + [s1] + [s2] + [s'];
  }

  /** It locks the node and looks again. */
  lemma LookAgain(s: State, t: Tid, n: Addr) returns (run: seq<State>, s': State)
    requires At(s, t, Acquire) && n in s.heap && s.heap[n].fullyLinked && !s.heap[n].marked && s.heap[n].owner == None
    requires var th := s.threads[t];
             th.cur == n && th.cont == WalkMarkedAgain && th.targets == [n] && th.taken == 0 && th.locks == {}
    ensures Leads(run, s, s', map[]) && s'.heap == s.heap[n := s.heap[n].(owner := Some(t))] && t in s'.threads
    ensures s'.threads[t] == s.threads[t].(pc := WalkRead, taken := 1, locks := {n})
  {
    hide Next, Leads, Keeps;
    AnyKeepsNone(s.heap);
    Stay(s, map[]);
    var s1 := Acquired(s, t, n);
    AnyKeepsNone(s1.heap);
    Go([s], s, s, t, s1, s1.heap, s.level, s1.threads[t], map[]);
    var s2 := SeenUnmarkedAgain(s1, t);
    Go([s] + [s1], s, s1, t, s2, s1.heap, s.level, s2.threads[t], map[]);
    s' := SeenLinkedAgain(s2, t);
    Go([s] + [s1] + [s2], s, s2, t, s', s1.heap, s.level, s'.threads[t], map[]);
    run := [s] + [s1] + [s2] + [s'];
  }

  /** It collects the node and unlocks it. */
  lemma CollectRun(s: State, t: Tid, n: Addr) returns (run: seq<State>, s': State)
    requires At(s, t, WalkRead) && n in s.heap
    requires var th := s.threads[t]; th.call.Scan? && th.locks == {n} && th.cur == n
    ensures Leads(run, s, s', map[]) && s'.heap == s.heap[n := s.heap[n].(owner := None)] && t in s'.threads
    ensures var th, th' := s.threads[t], s'.threads[t];
            && th'.pc == WalkLoad && th'.call == th.call && th'.pred == n && th'.locks == {}
            && th'.result == th.result + [(s.heap[n].key, s.heap[n].value)]
  {
    hide Next, Leads, Keeps;
    AnyKeepsNone(s.heap);
    Stay(s, map[]);
    var s1 := Collects(s, t);
    Go([s], s, s, t, s1, s.heap, s.level, s1.threads[t], map[]);
    s' := Released(s1, t, n);
    AnyKeepsNone(s'.heap);
    Go([s] + [s1], s, s1, t, s', s'.heap, s.level, s'.threads[t], map[]);
    run := [s] + [s1] + [s'];
  }

  /** The whole visit of a node. */
  lemma VisitRun(s: State, t: Tid, n: Addr) returns (run: seq<State>, s': State)
    requires At(s, t, WalkLoad) && s.threads[t].call.Scan? && s.threads[t].locks == {}
    requires HasLevel(s.heap, s.threads[t].pred, 0) && s.heap[s.threads[t].pred].forward[0] == n
    requires n != NULL && n in s.heap && s.heap[n].fullyLinked && !s.heap[n].marked && s.heap[n].owner == None
    requires !LexLess(s.threads[t].call.end, s.heap[n].key)
    ensures Leads(run, s, s', map[]) && s'.heap == s.heap && t in s'.threads
    ensures var th, th' := s.threads[t], s'.threads[t];
            && th'.pc == WalkLoad && th'.call == th.call && th'.pred == n && th'.locks == {}
            && th'.result == th.result + [(s.heap[n].key, s.heap[n].value)]
  {
    hide Leads, LexLess;
    var r1, s1 := LookRun(s, t, n);
    var r2, s2 := LookAgain(s1, t, n);
    var r3, s3 := CollectRun(s2, t, n);
    Join(r1, r2, s, s1, s2, map[]);
    Join(r1 + r2[1..], r3, s, s2, s3, map[]);
    run, s' := r1 + r2[1..] + r3[1..], s3;
    assert s'.heap == s.heap;
  }

  /** What the run shows: a Scan has returned a key below its start. */
  ghost predicate Strayed(run: seq<State>, i: nat, a: Bytes, b: Bytes) {
    && ValidConfig(Duo()) && IsRun(Duo(), run) && i < |run| && 1 in run[i].threads && LexLess(a, b)
    && var th := run[i].threads[1];
       th.pc == Done && th.call == Scan(b, b) && Collected(th.result, a)
  }

  /** A Scan can answer a key below its start. */
  lemma ScanCanStray() returns (run: seq<State>, i: nat)
    ensures Strayed(run, i, [1], [2])
  {
    hide Leads, Keeps, Moves;
    var r1, s1 := PutB();
    var r2, s2 := ReaderSearches(s1, Scan([2], [2]), map[]);
    var r3, s3 := PutA(s2, map[]);
    var r4, s4 := ScanBoth(s3);
    Join(r1, r2, Begin(), s1, s2, map[]);
    Join(r1 + r2[1..], r3, Begin(), s2, s3, map[]);
    Join(r1 + r2[1..] + r3[1..], r4, Begin(), s3, s4, map[]);
    run := r1 + r2[1..] + r3[1..] + r4[1..];
    IsARun(run, s4);
    i := |run| - 1;
    assert s4.threads[1].result[0].0 == [1] && LexLess([1], [2]);
  }

  lemma ScanBoth(s: State) returns (run: seq<State>, s': State)
    requires At(s, 1, WalkLoad) && HasBoth(s.heap)
    requires var th := s.threads[1]; th.call == Scan([2], [2]) && th.pred == HEAD && th.result == [] && th.locks == {}
    ensures Leads(run, s, s', map[]) && At(s', 1, Done) && s'.threads[1].call == s.threads[1].call
    ensures s'.threads[1].result == [([1], []), ([2], [])]
  {
    hide Next, Leads;
    LexIrreflexive([2]);
    assert LexLess([1], [2]) && !LexLess([2], [1]);
    var r1, s1 := VisitRun(s, 1, 3);
    var r2, s2 := VisitRun(s1, 1, 2);
    Join(r1, r2, s, s1, s2, map[]);
    var s3 := Loaded(s2, 1, NULL);
    AnyKeepsNone(s2.heap);
    Stay(s2, map[]);
    Go([s2], s2, s2, 1, s3, s2.heap, s2.level, s3.threads[1], map[]);
    Join(r1 + r2[1..], [s2] + [s3], s, s2, s3, map[]);
    run, s' := r1 + r2[1..] + ([s2] + [s3])[1..], s3;
  }
}
