/** The results about every run of the concurrent skip list. */
module SkipListTheorems {
  import opened Wrappers
  import opened SkipListMachine
  import opened SkipListHeap
  import opened SkipListThreads
  import opened SkipListSafety
  import opened SkipListCalls

  // ------------------------------------------------------------- the account of size_

  ghost function LiveNodes(h: Heap): set<Addr> { set n | n in h && Live(h, n) }
  ghost function AddingThreads(s: State): set<Tid> { set t | t in s.threads && Adding(s.threads[t]) }
  ghost function RemovingThreads(s: State): set<Tid> { set t | t in s.threads && Removing(s.threads[t]) }

  /** size_ is the number of live nodes, minus the inserts that have yet to count
      theirs, plus the deletes that have yet to discount theirs, modulo 2^64. */
  ghost predicate SizeOk(s: State) {
    s.size == (|LiveNodes(s.heap)| - |AddingThreads(s)| + |RemovingThreads(s)|) % WORD
  }

  lemma SetGains<T>(a: set<T>, b: set<T>, x: T)
    requires x !in a && b == a + {x}
    ensures |b| == |a| + 1
  {
  }

  lemma QuietLive(h: Heap, h': Heap)
    requires Quiet(h, h')
    ensures LiveNodes(h') == LiveNodes(h)
  {
    forall n ensures Live(h, n) <==> Live(h', n) {}
  }

  lemma SizeStep(c: Config, s: State, t: Tid, ch: Choice, s': State)
    requires Core(c, s) && Step(c, s, t, ch) == Some(s') && SizeOk(s)
    ensures SizeOk(s')
  {
    StepActs(c, s, t, ch);
    KindAt(c, s, t);
    StepFrame(c, s, t, ch, s');
    var pc := s.threads[t].pc;
    if pc in {WriteValue, SetLinked, Mark} {
      UpdateLive(c, s, t, ch, s');
    } else {
      QuietSteps(c, s, t, ch, s');
      QuietLive(s.heap, s'.heap);
    }
    hide Core, Step, KindOk;
    AccountStep(s, t, s');
  }

  lemma UpdateLive(c: Config, s: State, t: Tid, ch: Choice, s': State)
    requires Core(c, s) && Step(c, s, t, ch) == Some(s') && t in s.threads
    requires s.threads[t].pc in {WriteValue, SetLinked, Mark}
    ensures s.threads[t].pc == WriteValue ==> LiveNodes(s'.heap) == LiveNodes(s.heap)
    ensures s.threads[t].pc == SetLinked ==>
              s.threads[t].node !in LiveNodes(s.heap) && LiveNodes(s'.heap) == LiveNodes(s.heap) + {s.threads[t].node}
    ensures s.threads[t].pc == Mark ==>
              s.threads[t].node !in LiveNodes(s'.heap) && LiveNodes(s.heap) == LiveNodes(s'.heap) + {s.threads[t].node}
  {
    hide HeapInv, AgentsKnown, Found, LocksMatch, TransitMine, AnswerOk, InsertValid;
    var th := s.threads[t];
    assert ThreadOk(c, s.heap, t, th);
    forall n | n != th.node ensures Live(s.heap, n) <==> Live(s'.heap, n) {}
  }

  function Unit(b: bool): nat { if b then 1 else 0 }

  lemma CountOne(a: set<Tid>, b: set<Tid>, t: Tid)
    requires a - {t} == b - {t}
    ensures |b| - Unit(t in b) == |a| - Unit(t in a)
  {
    if t in a { assert a == (a - {t}) + {t}; }
    if t in b { assert b == (b - {t}) + {t}; }
  }

  lemma CountThreads(s: State, t: Tid, s': State)
    requires t in s.threads && t in s'.threads && s'.threads == s.threads[t := s'.threads[t]]
    ensures |AddingThreads(s')| - Unit(Adding(s'.threads[t])) == |AddingThreads(s)| - Unit(Adding(s.threads[t]))
    ensures |RemovingThreads(s')| - Unit(Removing(s'.threads[t])) == |RemovingThreads(s)| - Unit(Removing(s.threads[t]))
  {
    hide Adding, Removing;
    CountOne(AddingThreads(s), AddingThreads(s'), t);
    CountOne(RemovingThreads(s), RemovingThreads(s'), t);
  }

  lemma Balance(pc: Pc, before: int, after: int, size: int, size': int)
    requires size == before % WORD
    requires after == before + Unit(pc == AddSize) - Unit(pc == SubSize)
    requires size' == (if pc == AddSize then (size + 1) % WORD else
                       if pc == SubSize then (size + WORD - 1) % WORD else size)
    ensures size' == after % WORD
  {
  }

  /** Each of the four steps moves exactly one unit between the parts of the account. */
  lemma ThreadDelta(s: State, t: Tid, s': State)
    requires OneActs(s, t, s')
    ensures |AddingThreads(s')| == |AddingThreads(s)| +
            Unit(s.threads[t].pc == SetLinked) - Unit(s.threads[t].pc == AddSize)
    ensures |RemovingThreads(s')| == |RemovingThreads(s)| +
            Unit(s.threads[t].pc == Mark) - Unit(s.threads[t].pc == SubSize)
  {
    hide AddingThreads, RemovingThreads;
    CountThreads(s, t, s');
  }

  lemma LiveDelta(pc: Pc, n: Addr, a: set<Addr>, b: set<Addr>)
    requires if pc == SetLinked then n !in a && b == a + {n}
             else if pc == Mark then n !in b && a == b + {n} else a == b
    ensures |b| == |a| + Unit(pc == SetLinked) - Unit(pc == Mark)
  {
    if pc == SetLinked { SetGains(a, b, n); }
    if pc == Mark { SetGains(b, a, n); }
  }

  lemma SizeMoves(s: State, t: Tid, s': State)
    requires OneActs(s, t, s')
    ensures t in s.threads
    ensures s'.size == (if s.threads[t].pc == AddSize then (s.size + 1) % WORD else
                        if s.threads[t].pc == SubSize then (s.size + WORD - 1) % WORD else s.size)
  {
    hide Adding, Removing;
  }

  lemma AccountStep(s: State, t: Tid, s': State)
    requires SizeOk(s) && OneActs(s, t, s')
    requires var pc, n, a, b := s.threads[t].pc, s.threads[t].node, LiveNodes(s.heap), LiveNodes(s'.heap);
             if pc == SetLinked then n !in a && b == a + {n}
             else if pc == Mark then n !in b && a == b + {n} else a == b
    ensures SizeOk(s')
  {
    hide AddingThreads, RemovingThreads, LiveNodes, Unit, OneActs;
    SizeMoves(s, t, s');
    var pc, a, b := s.threads[t].pc, LiveNodes(s.heap), LiveNodes(s'.heap);
    LiveDelta(pc, s.threads[t].node, a, b);
    ThreadDelta(s, t, s');
    Balance(pc, |a| - |AddingThreads(s)| + |RemovingThreads(s)|, |b| - |AddingThreads(s')| + |RemovingThreads(s')|,
            s.size, s'.size);
  }

  // ------------------------------------------------------------------- all runs

  ghost predicate Inv(c: Config, s: State) {
    && Core(c, s) && LogOk(c, s) && SizeOk(s)
    && |s.past| > 0 && s.past[|s.past| - 1] == s.heap
    && forall t :: t in s.threads ==> CallLogged(s, t) && CallPast(c, s, t)
  }

  lemma InvInit(c: Config, s: State)
    requires ValidConfig(c) && Init(c, s)
    ensures Inv(c, s)
  {
    hide HeapInv, Core;
    IdleOk(c, s);
    assert HeapInv(c, s.heap) by { EmptyHeapOk(c); }
    assert Contents(c, s.heap) == map[];
    assert LiveNodes(s.heap) == {} && AddingThreads(s) == {} && RemovingThreads(s) == {};
  }

  lemma InvStep(c: Config, s: State, t: Tid, ch: Choice, s': State)
    requires Inv(c, s) && Step(c, s, t, ch) == Some(s')
    ensures Inv(c, s')
  {
    hide HeapInv, ThreadsOk, AgentsKnown, LogOk, SizeOk, CallLogged, CallPast, Step, Evolves;
    CoreStep(c, s, t, ch, s');
    LogStep(c, s, t, ch, s');
    SizeStep(c, s, t, ch, s');
    LoggedStep(c, s, t, ch, s');
    PastStep(c, s, t, ch, s');
  }

  lemma InvClear(c: Config, s: State)
    requires Inv(c, s) && AllIdle(s)
    ensures Inv(c, Clear(c, s))
  {
    hide HeapInv, ThreadsOk, AgentsKnown, LogOk;
    var s' := Clear(c, s);
    CoreClear(c, s);
    LogClear(c, s);
    assert LiveNodes(s'.heap) == {} && AddingThreads(s') == {} && RemovingThreads(s') == {};
  }

  /** The invariant holds in every state of every run, for any number of threads. */
  lemma {:induction false} Reachable(c: Config, run: seq<State>, i: nat)
    requires ValidConfig(c) && IsRun(c, run) && i < |run|
    ensures Inv(c, run[i])
    ensures |run[i].past| == i + 1
    ensures forall j :: 0 <= j <= i ==> run[i].past[j] == run[j].heap
  {
    hide Inv, Init, AllIdle, Step;
    if i == 0 {
      InvInit(c, run[0]);
      assert run[0].past == [run[0].heap] by { InitPast(c, run[0]); }
    } else {
      Reachable(c, run, i - 1);
      var s, s' := run[i - 1], run[i];
      assert Next(c, s, s');
      if t, ch :| Step(c, s, t, ch) == Some(s') {
        InvStep(c, s, t, ch, s');
        InvPast(c, s, t, ch, s');
      } else {
        InvClear(c, s);
      }
    }
  }

  lemma InitPast(c: Config, s: State)
    requires Init(c, s)
    ensures s.past == [s.heap]
  {
  }

  lemma InvPast(c: Config, s: State, t: Tid, ch: Choice, s': State)
    requires Inv(c, s) && Step(c, s, t, ch) == Some(s')
    ensures s'.past == s.past + [s'.heap]
  {
    hide HeapInv, ThreadsOk, AgentsKnown, LogOk, SizeOk, CallLogged, CallPast, Step, KindOk;
    StepActs(c, s, t, ch);
    KindAt(c, s, t);
    StepFrame(c, s, t, ch, s');
  }
}
