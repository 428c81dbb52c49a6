/** What the invariant means to a caller: chains, linearizable updates, honest readers, no deadlock. */
module SkipListResults {
  import opened Wrappers
  import opened Bytes
  import opened SkipListMachine
  import opened SkipListHeap
  import opened SkipListThreads
  import opened SkipListHistory
  import opened SkipListSafety
  import opened SkipListCalls
  import opened SkipListTheorems

  // ------------------------------------------------------------------ chains

  /** From the first node on, `p` lists what following `forward[l]` to null meets. */
  ghost predicate Follows(h: Heap, l: nat, p: seq<Addr>) {
    && |p| > 0 && HasLevel(h, p[0], l)
    && if |p| == 1 then h[p[0]].forward[l] == NULL
       else h[p[0]].forward[l] == p[1] != NULL && Follows(h, l, p[1..])
  }

  ghost predicate IsChain(c: Config, h: Heap, l: nat, p: seq<Addr>) { Follows(h, l, p) && p[0] == c.head }

  /** Keys grow strictly along the chain behind the head. */
  ghost predicate KeyOrdered(c: Config, h: Heap, p: seq<Addr>) {
    forall i, j :: 0 <= i < j < |p| ==> p[j] in h && p[j] != c.head && Before(c, h, p[i], h[p[j]].key)
  }

  lemma {:induction false} FollowsListed(c: Config, h: Heap, l: nat, p: seq<Addr>)
    requires ValidConfig(c) && HeapInv(c, h) && Follows(h, l, p) && InLevel(h, p[0], l)
    ensures KeyOrdered(c, h, p)
    ensures forall n :: n in p ==> InLevel(h, n, l)
  {
    hide HeapInv;
    if |p| > 1 {
      var q := p[1..];
      EdgeAt(c, h, p[0], l);
      FollowsListed(c, h, l, q);
      assert p == [p[0]] + q;
      forall i, j | 0 <= i < j < |p| ensures p[j] in h && p[j] != c.head && Before(c, h, p[i], h[p[j]].key) {
        assert p[j] == q[j - 1];
        if i > 0 { assert p[i] == q[i - 1]; }
      }
    }
  }

  /** Whatever is listed above the first node is met. */
  lemma {:induction false} FollowsMeets(c: Config, h: Heap, l: nat, p: seq<Addr>, m: Addr)
    requires ValidConfig(c) && HeapInv(c, h) && Follows(h, l, p) && InLevel(h, p[0], l)
    requires InLevel(h, m, l) && m != c.head && Before(c, h, p[0], h[m].key)
    ensures m in p
  {
    hide HeapInv;
    NextAt(c, h, p[0], m, l);
    EdgeAt(c, h, p[0], l);
    KeysAt(c, h, p[1], m);
    if p[1] != m {
      FollowsMeets(c, h, l, p[1..], m);
      assert m in p[1..];
    }
  }

  /** A chain lists its level in key order and completely. */
  lemma ChainExact(c: Config, h: Heap, l: nat, p: seq<Addr>)
    requires ValidConfig(c) && HeapInv(c, h) && l < c.maxLevel && IsChain(c, h, l, p)
    ensures KeyOrdered(c, h, p)
    ensures forall n :: n in p <==> InLevel(h, n, l)
  {
    assert c.head in p;
    hide HeapInv, Follows;
    HeadAt(c, h);
    FollowsListed(c, h, l, p);
    forall n | InLevel(h, n, l) ensures n in p {
      if n != c.head { FollowsMeets(c, h, l, p, n); }
    }
  }

  /** The listed nodes above `n`. */
  ghost function Above(c: Config, h: Heap, l: nat, n: Addr): set<Addr> {
    set m | m in h && m != c.head && InLevel(h, m, l) && Before(c, h, n, h[m].key)
  }

  /** Following the pointers from a listed node ends at null. */
  lemma FollowsEnds(c: Config, h: Heap, l: nat, n: Addr) returns (p: seq<Addr>)
    requires ValidConfig(c) && HeapInv(c, h) && InLevel(h, n, l)
    ensures Follows(h, l, p) && p[0] == n
    decreases |Above(c, h, l, n)|
  {
    hide HeapInv, Above;
    NodeAt(c, h, n);
    var f := h[n].forward[l];
    if f == NULL { return [n]; }
    EdgeAt(c, h, n, l);
    AboveShrinks(c, h, l, n, f);
    SubsetSmaller(Above(c, h, l, f), Above(c, h, l, n));
    var rest := FollowsEnds(c, h, l, f);
    p := [n] + rest;
    assert p[1..] == rest;
  }

  lemma AboveShrinks(c: Config, h: Heap, l: nat, n: Addr, f: Addr)
    requires ValidConfig(c) && InLevel(h, n, l) && InLevel(h, f, l) && f != c.head && Before(c, h, n, h[f].key)
    ensures Above(c, h, l, f) < Above(c, h, l, n)
  {
    assert f in Above(c, h, l, n) && f !in Above(c, h, l, f);
  }

  lemma SubsetSmaller<T>(a: set<T>, b: set<T>)
    requires a < b
    ensures |a| < |b|
  {
    var x :| x in b && x !in a;
    assert a <= b - {x};
    SubsetSmallerEq(a, b - {x});
  }

  lemma SubsetSmallerEq<T>(a: set<T>, b: set<T>)
    requires a <= b
    ensures |a| <= |b|
  {
    if a != {} {
      var x :| x in a;
      SubsetSmallerEq(a - {x}, b - {x});
    }
  }

  /**
   * In every reachable state each level has a chain from the head to null. It is
   * strictly key-ordered; the chain one level up visits a subset of its nodes;
   * it visits every live node that is tall enough, and every unmarked node
   * already linked at the level; and every other node it visits is being linked
   * or unlinked by a thread right now.
   */
  lemma LevelsAreChains(c: Config, run: seq<State>, i: nat, l: nat)
    requires ValidConfig(c) && IsRun(c, run) && i < |run| && l < c.maxLevel
    ensures exists p :: IsChain(c, run[i].heap, l, p)
    ensures forall p :: IsChain(c, run[i].heap, l, p) ==> KeyOrdered(c, run[i].heap, p)
    ensures forall p, q :: IsChain(c, run[i].heap, l, p) && l + 1 < c.maxLevel && IsChain(c, run[i].heap, l + 1, q)
                           ==> Elems(q) <= Elems(p)
    ensures forall p, n :: IsChain(c, run[i].heap, l, p) && Live(run[i].heap, n) && l <= run[i].heap[n].topLevel ==>
              n in p
    ensures forall p, n :: IsChain(c, run[i].heap, l, p) ==> (n in p <==> InLevel(run[i].heap, n, l))
    ensures forall p, n :: IsChain(c, run[i].heap, l, p) && n in p && n != c.head && !Live(run[i].heap, n)
                           ==> InTransit(c, run[i].heap, n)
  {
    hide IsRun, Follows, HeapInv, ThreadsOk, AgentsKnown, LogOk, SizeOk, CallLogged, CallPast;
    Reachable(c, run, i);
    var h := run[i].heap;
    HeadAt(c, h);
    var p0 := FollowsEnds(c, h, l, c.head);
    assert IsChain(c, h, l, p0);
    forall p | IsChain(c, h, l, p) ensures KeyOrdered(c, h, p) && forall n :: n in p <==> InLevel(h, n, l) {
      ChainExact(c, h, l, p);
    }
    forall p, q | IsChain(c, h, l, p) && l + 1 < c.maxLevel && IsChain(c, h, l + 1, q) ensures Elems(q) <= Elems(p) {
      ChainExact(c, h, l + 1, q);
    }
    forall p, n | IsChain(c, h, l, p) && Live(h, n) && l <= h[n].topLevel ensures n in p {
      NodeAt(c, h, n);
    }
    forall p, n | IsChain(c, h, l, p) && n in p && n != c.head && !Live(h, n) ensures InTransit(c, h, n) {
    }
  }

  // ---------------------------------------------------------- linearizability

  /** The log of a reachable state is a legal sequential history of the map and ends in the current contents. */
  lemma LogExplainsContents(c: Config, run: seq<State>, i: nat)
    requires ValidConfig(c) && IsRun(c, run) && i < |run|
    ensures HeapInv(c, run[i].heap) && Legal(run[i].log) && Outcome(run[i].log) == Contents(c, run[i].heap)
  {
    hide IsRun, HeapInv, ThreadsOk, AgentsKnown, SizeOk, CallLogged, CallPast;
    Reachable(c, run, i);
  }

  /** The key was absent from the map at some moment between states `from` and `i`. */
  ghost predicate AbsentDuring(run: seq<State>, from: nat, i: nat, key: Bytes) {
    i < |run| && exists j :: from <= j <= i && NoLiveKey(run[j].heap, key)
  }

  /** The key was in the map with this value at some moment between states `from` and `i`. */
  ghost predicate PresentDuring(run: seq<State>, from: nat, i: nat, key: Bytes, value: Bytes) {
    i < |run| && exists j :: from <= j <= i && LivePair(run[j].heap, key, value)
  }

  /**
   * Every Put that returns, and every Delete that returns true, has exactly one
   * entry in the log; it was added between invocation and return and carries the
   * answer returned. A Delete that returns false ran while its key was absent at
   * some moment of the call.
   */
  lemma UpdatesLinearize(c: Config, run: seq<State>, i: nat, t: Tid)
    requires ValidConfig(c) && IsRun(c, run) && i < |run| && t in run[i].threads && run[i].threads[t].pc == Done
    ensures var th, log := run[i].threads[t], run[i].log;
            th.call.Put? || (th.call.Delete? && th.ret) ==>
              exists e :: th.logged <= e < |log| && log[e] == Update(t, th.call, th.ret)
                          && forall j :: th.logged <= j < |log| && log[j].Update? && log[j].tid == t ==> j == e
    ensures var th := run[i].threads[t];
            th.call.Delete? && !th.ret ==> AbsentDuring(run, th.began, i, th.call.key)
  {
    hide IsRun, HeapInv, ThreadsOk, AgentsKnown, LogOk, SizeOk, NoLiveKey, Hindsight;
    Reachable(c, run, i);
    var s, th := run[i], run[i].threads[t];
    assert CallLogged(s, t) && CallPast(c, s, t);
    if th.call.Put? || (th.call.Delete? && th.ret) {
      assert th.lin.Some?;
    }
    if th.call.Delete? && !th.ret {
      var j :| th.began <= j < |s.past| && NoLiveKey(s.past[j], th.call.key);
      assert s.past[j] == run[j].heap;
    }
  }

  /**
   * A reader's answer is strictly key-ordered and every pair in it was in the
   * map at some moment of the call. A Scan answers no key above its end; a Get
   * that answers true answers its own key.
   */
  lemma ReadersHonest(c: Config, run: seq<State>, i: nat, t: Tid)
    requires ValidConfig(c) && IsRun(c, run) && i < |run| && t in run[i].threads && run[i].threads[t].pc == Done
    requires run[i].threads[t].call.Get? || run[i].threads[t].call.Scan? || run[i].threads[t].call.Snapshot?
    ensures var th := run[i].threads[t];
            && SortedPairs(c, th.result)
            && (forall k :: 0 <= k < |th.result| ==> PresentDuring(run, th.began, i, th.result[k].0, th.result[k].1))
            && (th.call.Scan? ==> forall k :: 0 <= k < |th.result| ==> !c.less(th.call.end, th.result[k].0))
            && (th.call.Get? && th.ret ==> |th.result| == 1 && th.result[0].0 == th.call.key)
  {
    hide IsRun, HeapInv, AgentsKnown, LogOk, SizeOk, Hindsight, PresentIn, LivePair;
    Reachable(c, run, i);
    var s, th := run[i], run[i].threads[t];
    assert CallPast(c, s, t) && ThreadOk(c, s.heap, t, th);
    hide PresentDuring;
    forall k | 0 <= k < |th.result| ensures PresentDuring(run, th.began, i, th.result[k].0, th.result[k].1) {
      PresentInRun(run, i, th.began, th.result[k].0, th.result[k].1);
    }
  }

  lemma PresentInRun(run: seq<State>, i: nat, began: nat, key: Bytes, value: Bytes)
    requires i < |run| && |run[i].past| == i + 1 && forall j :: 0 <= j <= i ==> run[i].past[j] == run[j].heap
    requires PresentIn(run[i].past, began, key, value)
    ensures PresentDuring(run, began, i, key, value)
  {
    hide LivePair;
    var j :| began <= j < |run[i].past| && LivePair(run[i].past[j], key, value);
    assert LivePair(run[j].heap, key, value);
  }

  /** There is at most one live node per key; LivePair is membership in the abstract
      map, NoLiveKey is absence from it. */
  lemma PairsAreContents(c: Config, run: seq<State>, i: nat, key: Bytes, value: Bytes)
    requires ValidConfig(c) && IsRun(c, run) && i < |run|
    ensures HeapInv(c, run[i].heap)
    ensures LivePair(run[i].heap, key, value) <==>
              key in Contents(c, run[i].heap) && Contents(c, run[i].heap)[key] == value
    ensures NoLiveKey(run[i].heap, key) <==> key !in Contents(c, run[i].heap)
    ensures forall n, m :: Live(run[i].heap, n) && Live(run[i].heap, m) && run[i].heap[n].key == run[i].heap[m].key ==>
              n == m
  {
    hide IsRun, HeapInv, ThreadsOk, AgentsKnown, LogOk, SizeOk, CallLogged, CallPast;
    Reachable(c, run, i);
    var h := run[i].heap;
    LiveUnique(c, h);
    ContentsFrom(c, h, key);
    if LivePair(h, key, value) {
      var n :| Live(h, n) && h[n].key == key && h[n].value == value;
      ContentsAt(c, h, n);
    }
  }

  /** The step is one of the three of thread `t` that take effect: it logs the call
      and the answer of that thread, and changes the map as that entry specifies. */
  ghost predicate TakesEffect(c: Config, s: State, s': State, t: Tid)
    requires HeapInv(c, s.heap) && HeapInv(c, s'.heap)
  {
    t in s.threads && t in s'.threads &&
    var m, e := Contents(c, s.heap), Update(t, s.threads[t].call, s'.threads[t].ret);
    && s.threads[t].pc in {WriteValue, SetLinked, Mark}
    && s'.log == s.log + [e] && Correct(m, e) && Contents(c, s'.heap) == Effect(m, e)
  }

  /** Every step changes the map as the call of the acting thread specifies, with the answer
      that thread will return, or clears it, or does not change it. */
  lemma StepsAreSpecSteps(c: Config, run: seq<State>, i: nat)
    requires ValidConfig(c) && IsRun(c, run) && i + 1 < |run|
    ensures HeapInv(c, run[i].heap) && HeapInv(c, run[i + 1].heap)
    ensures var s, s' := run[i], run[i + 1];
            || (s'.log == s.log && Contents(c, s'.heap) == Contents(c, s.heap))
            || (s' == Clear(c, s) && Contents(c, s'.heap) == map[])
            || exists t :: TakesEffect(c, s, s', t)
  {
    hide HeapInv, ThreadsOk, AgentsKnown, LogOk, SizeOk, CallLogged, CallPast, Step, Init, TakesEffect, Contents;
    Reachable(c, run, i);
    Reachable(c, run, i + 1);
    var s, s' := run[i], run[i + 1];
    assert Next(c, s, s');
    if t, ch :| Step(c, s, t, ch) == Some(s') {
      StepActs(c, s, t, ch);
      EffectOf(c, s, t, ch, s');
    } else {
      assert s' == Clear(c, s);
      NothingLeft(c, s);
    }
  }

  lemma EffectOf(c: Config, s: State, t: Tid, ch: Choice, s': State)
    requires t in s.threads && Core(c, s) && Step(c, s, t, ch) == Some(s') && HeapInv(c, s'.heap)
    ensures (s'.log == s.log && Contents(c, s'.heap) == Contents(c, s.heap)) || TakesEffect(c, s, s', t)
  {
    hide HeapInv, Step, Contents, Correct;
    if s.threads[t].pc in {WriteValue, SetLinked, Mark} {
      UpdateActs(c, s, t, ch, s');
      UpdateSteps(c, s, t, ch, s');
    } else {
      QuietSteps(c, s, t, ch, s');
      ContentsQuiet(c, s.heap, s'.heap);
    }
  }

  lemma NothingLeft(c: Config, s: State)
    requires HeapInv(c, Clear(c, s).heap)
    ensures Contents(c, Clear(c, s).heap) == map[]
  {
    hide HeapInv;
  }

  // --------------------------------------------------------------------- size_

  /** size_ is exact whenever no call is in flight. */
  lemma SizeExactWhenIdle(c: Config, run: seq<State>, i: nat)
    requires ValidConfig(c) && IsRun(c, run) && i < |run|
    ensures SizeOk(run[i]) && HeapInv(c, run[i].heap)
    ensures |LiveNodes(run[i].heap)| == |Contents(c, run[i].heap)|
    ensures AllIdle(run[i]) ==> run[i].size == |Contents(c, run[i].heap)| % WORD
  {
    hide IsRun, HeapInv, ThreadsOk, AgentsKnown, LogOk, CallLogged, CallPast;
    Reachable(c, run, i);
    var s := run[i];
    LiveCount(c, s.heap);
    if AllIdle(s) {
      assert AddingThreads(s) == {} && RemovingThreads(s) == {};
    }
  }

  lemma LiveCount(c: Config, h: Heap)
    requires HeapInv(c, h)
    ensures |LiveNodes(h)| == |Contents(c, h)|
  {
    LiveUnique(c, h);
    hide HeapInv;
    var keys := set n | n in LiveNodes(h) :: h[n].key;
    ImageSize(h, LiveNodes(h));
    forall k ensures k in keys <==> k in Contents(c, h) { ContentsFrom(c, h, k); }
    assert keys == Contents(c, h).Keys;
  }

  lemma ImageSize(h: Heap, nodes: set<Addr>)
    requires forall n :: n in nodes ==> n in h
    requires forall n, m :: n in nodes && m in nodes && h[n].key == h[m].key ==> n == m
    ensures |set n | n in nodes :: h[n].key| == |nodes|
  {
    if nodes != {} {
      var x :| x in nodes;
      ImageSize(h, nodes - {x});
      assert (set n | n in nodes :: h[n].key) == (set n | n in nodes - {x} :: h[n].key) + {h[x].key};
    }
  }

  // ------------------------------------------------------------- frozen pointers

  /** Until the next Clear, a marked node stays allocated, marked, and points where it pointed. */
  lemma {:induction false} MarkedFrozen(c: Config, run: seq<State>, i: nat, j: nat, n: Addr)
    requires ValidConfig(c) && IsRun(c, run) && i <= j < |run|
    requires n in run[i].heap && run[i].heap[n].marked
    requires forall k :: i <= k < j ==> run[k + 1] != Clear(c, run[k])
    ensures n in run[j].heap && run[j].heap[n].marked && run[j].heap[n].forward == run[i].heap[n].forward
  {
    hide HeapInv, ThreadsOk, AgentsKnown, LogOk, SizeOk, CallLogged, CallPast, Step, Init;
    if i < j {
      MarkedFrozen(c, run, i, j - 1, n);
      Reachable(c, run, j - 1);
      var s, s' := run[j - 1], run[j];
      assert Next(c, s, s') && s' != Clear(c, s);
      var t, ch :| Step(c, s, t, ch) == Some(s');
      CoreStep(c, s, t, ch, s');
    }
  }

  /** Every forward pointer of every allocated node, listed or not, is null or leads to an allocated node with
      a larger key. */
  lemma PointersAscend(c: Config, run: seq<State>, i: nat, n: Addr, l: nat)
    requires ValidConfig(c) && IsRun(c, run) && i < |run| && HasLevel(run[i].heap, n, l)
    ensures var h := run[i].heap;
            var f := h[n].forward[l];
            f == NULL || (f in h && f != c.head && l <= h[f].topLevel && (n == c.head || c.less(h[n].key, h[f].key)))
  {
    hide IsRun, HeapInv, ThreadsOk, AgentsKnown, LogOk, SizeOk, CallLogged, CallPast;
    Reachable(c, run, i);
    EdgeAt(c, run[i].heap, n, l);
  }
}
