/**
 * Calls return.
 *
 * Every step of a call but a new attempt and a spurious failure of compare_exchange_weak
 * lowers the rank of the call: what is left of its search, its mutexes, its levels and its
 * walk. Where calls do not overlap no attempt fails, so every call returns.
 */
module SkipListReturns {
  import opened Wrappers
  import opened SkipListMachine
  import opened SkipListHeap
  import opened SkipListThreads
  import opened SkipListSafety
  import opened SkipListCalls
  import opened SkipListTheorems
  import opened SkipListResults
  import opened SkipListProgress
  import opened SkipListLone
  import opened SkipListLevels

  // ------------------------------------------------------------------------ the rank

  datatype Rank = Rank(phase: nat, major: nat, minor: nat)

  predicate Below(a: Rank, b: Rank) {
    || a.phase < b.phase
    || (a.phase == b.phase && (a.major < b.major || (a.major == b.major && a.minor < b.minor)))
  }

  function Gap(a: nat, b: nat): nat { if a < b then 0 else a - b }

  /** The nodes with keys above that of `n`. */
  ghost function Above(c: Config, h: Heap, n: Addr): set<Addr> {
    set m | m in h && m != c.head && Before(c, h, n, h[m].key)
  }

  /** The rank of a walk along the bottom level: how many keys lie ahead, then where the thread is at a node. */
  ghost function WalkRank(c: Config, h: Heap, th: Thread): Rank {
    match th.pc
    case WalkLoad => Rank(7, |Above(c, h, th.pred)|, 12)
    case WalkMarked => Rank(7, |Above(c, h, th.cur)| + 1, 11)
    case WalkLinked => Rank(7, |Above(c, h, th.cur)| + 1, 10)
    case Acquire => Rank(7, |Above(c, h, th.cur)| + 1, 7 + Gap(|th.targets|, th.taken))
    case WalkMarkedAgain => Rank(7, |Above(c, h, th.cur)| + 1, 6)
    case WalkLinkedAgain => Rank(7, |Above(c, h, th.cur)| + 1, 5)
    case WalkRead => Rank(7, |Above(c, h, th.cur)| + 1, 4)
    case _ => Rank(7, |Above(c, h, th.pred)| + 1, |th.locks|)
  }

  /** The rank from the first check of an update to its last store. */
  function UpdateRank(level: nat, th: Thread): Rank {
    match th.pc
    case CheckMarked => Rank(16, 0, 0)
    case CheckLinked => Rank(15, 0, 0)
    case WriteValue => Rank(9, 0, 0)
    case InsertPred => Rank(14, Gap(th.top, th.level), 2)
    case InsertSucc => Rank(14, Gap(th.top, th.level), 1)
    case InsertForward => Rank(14, Gap(th.top, th.level), 0)
    case Alloc => Rank(13, 0, 0)
    case Link => Rank(12, Gap(th.top, th.level), 0)
    case SetLinked => Rank(11, 0, 0)
    case AddSize => Rank(10, 0, 0)
    case RaiseLoad => Rank(9, 0, 0)
    case RaiseCas => Rank(8, if th.observed == level then 0 else 1, 0)
    case VictimLinked => Rank(16, 0, 0)
    case VictimMarked => Rank(15, 0, 0)
    case DeletePred => Rank(14, Gap(th.top, th.level), 1)
    case DeleteForward => Rank(14, Gap(th.top, th.level), 0)
    case Mark => Rank(13, 0, 0)
    case UnlinkLoad => Rank(12, th.level, 1)
    case UnlinkStore => Rank(12, th.level, 0)
    case SubSize => Rank(11, 0, 0)
    case Recompute => Rank(10, th.level, 0)
    case _ => Rank(9, 0, 0)
  }

  ghost function RankOf(c: Config, s: State, th: Thread): Rank {
    match th.pc
    case ReadLevel => Rank(20, 0, 0)
    case Descend => Rank(19, th.level, |Above(c, s.heap, th.pred)|)
    case Decide => Rank(18, 0, 0)
    case Acquire =>
      if th.cont == WalkMarkedAgain then WalkRank(c, s.heap, th) else Rank(17, Gap(|th.targets|, th.taken), 0)
    case Release => if th.cont == WalkLoad then WalkRank(c, s.heap, th) else Rank(1, |th.locks|, 0)
    case Done => Rank(0, 0, 0)
    case Idle => Rank(0, 0, 0)
    case WalkLoad | WalkMarked | WalkLinked | WalkMarkedAgain | WalkLinkedAgain | WalkRead =>
      WalkRank(c, s.heap, th)
    case _ => UpdateRank(s.level, th)
  }

  lemma FewerAbove(c: Config, h: Heap, n: Addr, f: Addr)
    requires ValidConfig(c) && f in h && f != c.head && Before(c, h, n, h[f].key)
    ensures |Above(c, h, f)| < |Above(c, h, n)|
  {
    var a, b := Above(c, h, f), Above(c, h, n);
    assert f in b && f !in a;
    forall m | m in a ensures m in b {
      assert c.less(h[f].key, h[m].key);
    }
    SubsetSmaller(a, b);
  }

  /** Locks leave the keys alone. */
  lemma AboveKept(c: Config, h: Heap, a: Addr, owner: Option<Tid>, n: Addr)
    requires a in h
    ensures Above(c, h[a := h[a].(owner := owner)], n) == Above(c, h, n)
  {
    var h' := h[a := h[a].(owner := owner)];
    forall m ensures m in Above(c, h', n) <==> m in Above(c, h, n) {
    }
  }

  // ------------------------------------------------------------------------- the steps

  ghost predicate Falls(c: Config, s: State, t: Tid, s': State) {
    && t in s.threads && t in s'.threads
    && (s'.threads[t].pc == Idle || Below(RankOf(c, s', s'.threads[t]), RankOf(c, s, s.threads[t])))
  }

  lemma FallsDescend(c: Config, s: State, t: Tid, ch: Choice, s': State)
    requires ValidConfig(c) && HeapInv(c, s.heap) && t in s.threads && t in s'.threads
    requires Step(c, s, t, ch) == Some(s') && s.threads[t].pc == Descend
    ensures Falls(c, s, t, s')
  {
    hide HeapInv, Above, WalkRank, UpdateRank, KeysEqual;
    var th := s.threads[t];
    assert DescendOnce(c, s, t, th) == Some(s');
    hide Step;
    EdgeAt(c, s.heap, th.pred, th.level - 1);
    var cur := s.heap[th.pred].forward[th.level - 1];
    if cur != NULL { FewerAbove(c, s.heap, th.pred, cur); }
  }

  lemma FallsSearch(c: Config, s: State, t: Tid, ch: Choice, s': State)
    requires t in s.threads && t in s'.threads
    requires Step(c, s, t, ch) == Some(s') && s.threads[t].pc in {ReadLevel, Decide, Done}
    ensures Falls(c, s, t, s')
  {
    hide Above, SortUnique, UpdateRank;
    var th := s.threads[t];
    match th.pc {
      case ReadLevel => assert StartDescent(c, s, t, th) == Some(s');
      case Decide => assert DecideNext(c, s, t, th, ch) == Some(s');
      case Done => assert Local(s, t, th.(pc := Idle)) == Some(s');
    }
    hide Step;
  }
  lemma FallsAcquire(c: Config, s: State, t: Tid, ch: Choice, s': State)
    requires t in s.threads && t in s'.threads && KindOk(s.threads[t])
    requires Step(c, s, t, ch) == Some(s') && s.threads[t].pc == Acquire
    ensures Falls(c, s, t, s')
  {
    hide Above, PutPcs, DeletePcs, ReadPcs;
    var th := s.threads[t];
    assert AcquireNext(s, t, th) == Some(s');
    hide Step;
    AboveKept(c, s.heap, th.targets[th.taken], Some(t), th.cur);
  }

  lemma FallsRelease(c: Config, s: State, t: Tid, ch: Choice, s': State)
    requires t in s.threads && t in s'.threads && KindOk(s.threads[t]) && !Retrying(s.threads[t])
    requires Step(c, s, t, ch) == Some(s') && s.threads[t].pc == Release
    ensures Falls(c, s, t, s')
  {
    hide Above, PutPcs, DeletePcs, ReadPcs, UpdateRank;
    var th := s.threads[t];
    assert ReleaseOne(s, t, th, ch) == Some(s');
    hide Step;
    AboveKept(c, s.heap, ch.addr, None, th.pred);
    SubsetSmaller(th.locks - {ch.addr}, th.locks);
  }
  lemma FallsChecks(c: Config, s: State, t: Tid, ch: Choice, s': State)
    requires t in s.threads && t in s'.threads && Step(c, s, t, ch) == Some(s') && !Retrying(s'.threads[t])
    requires s.threads[t].pc in {CheckMarked, CheckLinked, WriteValue}
    ensures Falls(c, s, t, s')
  {
    hide Above, WalkRank;
    var th := s.threads[t];
    match th.pc {
      case CheckMarked => assert StepCheckMarked(s, t, th) == Some(s');
      case CheckLinked => assert StepCheckLinked(s, t, th) == Some(s');
      case WriteValue => assert StepWriteValue(s, t, th) == Some(s');
    }
    hide Step;
  }

  lemma FallsVictim(c: Config, s: State, t: Tid, ch: Choice, s': State)
    requires t in s.threads && t in s'.threads && Step(c, s, t, ch) == Some(s') && !Retrying(s'.threads[t])
    requires s.threads[t].pc in {VictimLinked, VictimMarked}
    ensures Falls(c, s, t, s')
  {
    hide Above, WalkRank;
    var th := s.threads[t];
    if th.pc == VictimLinked {
      assert StepVictimLinked(s, t, th) == Some(s');
    } else {
      assert StepVictimMarked(c, s, t, th) == Some(s');
    }
    hide Step;
  }
  lemma FallsValidating(c: Config, s: State, t: Tid, ch: Choice, s': State)
    requires t in s.threads && t in s'.threads && Step(c, s, t, ch) == Some(s') && !Retrying(s'.threads[t])
    requires s.threads[t].pc in {InsertPred, InsertSucc, InsertForward, DeletePred, DeleteForward}
    requires s.threads[t].level <= s.threads[t].top
    ensures Falls(c, s, t, s')
  {
    hide Above, WalkRank;
    var th := s.threads[t];
    match th.pc {
      case InsertPred => assert StepInsertPred(s, t, th) == Some(s');
      case InsertSucc => assert StepInsertSucc(s, t, th) == Some(s');
      case InsertForward => assert StepInsertForward(s, t, th) == Some(s');
      case DeletePred => assert StepDeletePred(s, t, th) == Some(s');
      case DeleteForward => assert StepDeleteForward(s, t, th) == Some(s');
    }
    hide Step;
  }

  lemma FallsInserting(c: Config, s: State, t: Tid, ch: Choice, s': State)
    requires t in s.threads && t in s'.threads && Step(c, s, t, ch) == Some(s')
    requires s.threads[t].pc in {Alloc, Link, SetLinked}
    requires s.threads[t].pc == Link ==> s.threads[t].level <= s.threads[t].top
    ensures Falls(c, s, t, s')
  {
    hide Above, WalkRank, SetForward, SetLinkedLevels;
    var th := s.threads[t];
    match th.pc {
      case Alloc => assert StepAlloc(s, t, th, ch) == Some(s');
      case Link => assert StepLink(s, t, th) == Some(s');
      case SetLinked => assert StepSetLinked(s, t, th) == Some(s');
    }
    hide Step;
  }

  lemma FallsRaising(c: Config, s: State, t: Tid, ch: Choice, s': State)
    requires t in s.threads && t in s'.threads && Step(c, s, t, ch) == Some(s')
    requires s.threads[t].pc in {AddSize, RaiseLoad, RaiseCas}
    requires s.threads[t].pc == RaiseCas ==> s'.threads[t] != s.threads[t]
    ensures Falls(c, s, t, s')
  {
    hide Above, WalkRank;
    var th := s.threads[t];
    match th.pc {
      case AddSize => assert StepAddSize(s, t, th) == Some(s');
      case RaiseLoad => assert StepRaiseLoad(s, t, th) == Some(s');
      case RaiseCas => assert StepRaiseCas(s, t, th, ch) == Some(s');
    }
    hide Step;
  }
  lemma FallsDeleting(c: Config, s: State, t: Tid, ch: Choice, s': State)
    requires t in s.threads && t in s'.threads && Step(c, s, t, ch) == Some(s')
    requires s.threads[t].pc in {Mark, UnlinkLoad, UnlinkStore}
    ensures Falls(c, s, t, s')
  {
    hide Above, WalkRank, SetForward, SetLinkedLevels;
    var th := s.threads[t];
    match th.pc {
      case Mark => assert StepMark(s, t, th) == Some(s');
      case UnlinkLoad => assert StepUnlinkLoad(s, t, th) == Some(s');
      case UnlinkStore => assert StepUnlinkStore(s, t, th) == Some(s');
    }
    hide Step;
  }

  lemma FallsRecompute(c: Config, s: State, t: Tid, ch: Choice, s': State)
    requires t in s.threads && t in s'.threads && Step(c, s, t, ch) == Some(s') && s.threads[t].pc == Recompute
    ensures Falls(c, s, t, s')
  {
    hide Above, WalkRank;
    assert StepRecompute(c, s, t, s.threads[t]) == Some(s');
    hide Step;
  }

  lemma FallsLowering(c: Config, s: State, t: Tid, ch: Choice, s': State)
    requires t in s.threads && t in s'.threads && Step(c, s, t, ch) == Some(s')
    requires s.threads[t].pc in {SubSize, StoreLevel}
    ensures Falls(c, s, t, s')
  {
    hide Above, WalkRank;
    var th := s.threads[t];
    if th.pc == SubSize {
      assert StepSubSize(c, s, t, th) == Some(s');
    } else {
      assert StepStoreLevel(s, t, th) == Some(s');
    }
    hide Step;
  }
  lemma FallsWalkLoad(c: Config, s: State, t: Tid, ch: Choice, s': State)
    requires ValidConfig(c) && HeapInv(c, s.heap) && t in s.threads && t in s'.threads
    requires Step(c, s, t, ch) == Some(s') && s.threads[t].pc == WalkLoad
    ensures Falls(c, s, t, s')
  {
    hide HeapInv, Above, KeysEqual, UpdateRank;
    var th := s.threads[t];
    assert StepWalkLoad(c, s, t, th) == Some(s');
    hide Step;
    EdgeAt(c, s.heap, th.pred, 0);
    var cur := s.heap[th.pred].forward[0];
    if cur != NULL { FewerAbove(c, s.heap, th.pred, cur); }
  }

  lemma FallsWalk(c: Config, s: State, t: Tid, ch: Choice, s': State)
    requires t in s.threads && t in s'.threads
    requires Step(c, s, t, ch) == Some(s') && s.threads[t].pc in {WalkMarked, WalkLinked}
    ensures Falls(c, s, t, s')
  {
    hide Above, UpdateRank;
    var th := s.threads[t];
    if th.pc == WalkMarked {
      assert StepWalkMarked(s, t, th) == Some(s');
    } else {
      assert StepWalkLinked(s, t, th) == Some(s');
    }
    hide Step;
  }

  lemma FallsLookAgain(c: Config, s: State, t: Tid, ch: Choice, s': State)
    requires t in s.threads && t in s'.threads && Step(c, s, t, ch) == Some(s') && |s.threads[t].locks| < 4
    requires s.threads[t].pc in {WalkMarkedAgain, WalkLinkedAgain}
    ensures Falls(c, s, t, s')
  {
    hide Above, UpdateRank;
    var th := s.threads[t];
    if th.pc == WalkMarkedAgain {
      assert StepWalkMarkedAgain(s, t, th) == Some(s');
    } else {
      assert StepWalkLinkedAgain(s, t, th) == Some(s');
    }
    hide Step;
  }

  lemma FallsRead(c: Config, s: State, t: Tid, ch: Choice, s': State)
    requires t in s.threads && t in s'.threads && Step(c, s, t, ch) == Some(s') && |s.threads[t].locks| < 4
    requires s.threads[t].pc == WalkRead
    ensures Falls(c, s, t, s')
  {
    hide Above, UpdateRank;
    assert StepWalkRead(s, t, s.threads[t]) == Some(s');
    hide Step;
  }
  /** What a thread knows about its levels and mutexes. */
  lemma LevelFacts(c: Config, h: Heap, t: Tid, th: Thread)
    requires PcOk(c, h, t, th)
    ensures th.pc in {InsertPred, InsertSucc, InsertForward, DeletePred, DeleteForward, Link} ==> th.level <= th.top
    ensures th.pc in {WalkMarkedAgain, WalkLinkedAgain, WalkRead} ==> |th.locks| < 4
  {
    hide Found, Before, Reached, InsertValid, VictimValid, CurOk;
  }

  /** A step of a call lowers its rank or ends it, unless it tries again or fails spuriously. */
  lemma StepFalls(c: Config, s: State, t: Tid, ch: Choice, s': State)
    requires Inv(c, s) && t in s.threads && t in s'.threads && Step(c, s, t, ch) == Some(s')
    requires s.threads[t].pc != Idle && !Retrying(s.threads[t]) && !Retrying(s'.threads[t])
    requires s.threads[t].pc == RaiseCas ==> s'.threads[t] != s.threads[t]
    ensures s'.threads[t].pc == Idle || Below(RankOf(c, s', s'.threads[t]), RankOf(c, s, s.threads[t]))
  {
    hide HeapInv, ThreadsOk, AgentsKnown, LogOk, SizeOk, CallLogged, CallPast, Step, KindOk, PcOk, RankOf, Below;
    var th := s.threads[t];
    KindAt(c, s, t);
    CoreThread(c, s, t);
    LevelFacts(c, s.heap, t, th);
    match th.pc {
      case ReadLevel | Decide | Done => FallsSearch(c, s, t, ch, s');
      case Descend => FallsDescend(c, s, t, ch, s');
      case Acquire => FallsAcquire(c, s, t, ch, s');
      case Release => FallsRelease(c, s, t, ch, s');
      case CheckMarked | CheckLinked | WriteValue => FallsChecks(c, s, t, ch, s');
      case VictimLinked | VictimMarked => FallsVictim(c, s, t, ch, s');
      case InsertPred | InsertSucc | InsertForward | DeletePred | DeleteForward => FallsValidating(c, s, t, ch, s');
      case Alloc | Link | SetLinked => FallsInserting(c, s, t, ch, s');
      case AddSize | RaiseLoad | RaiseCas => FallsRaising(c, s, t, ch, s');
      case Mark | UnlinkLoad | UnlinkStore => FallsDeleting(c, s, t, ch, s');
      case Recompute => FallsRecompute(c, s, t, ch, s');
      case SubSize | StoreLevel => FallsLowering(c, s, t, ch, s');
      case WalkLoad => FallsWalkLoad(c, s, t, ch, s');
      case WalkMarked | WalkLinked => FallsWalk(c, s, t, ch, s');
      case WalkMarkedAgain | WalkLinkedAgain => FallsLookAgain(c, s, t, ch, s');
      case _ => FallsRead(c, s, t, ch, s');
    }
  }

  // ------------------------------------------------------------------------- endless runs

  ghost predicate Endless(c: Config, run: nat -> State) {
    Init(c, run(0)) && forall k: nat :: Next(c, run(k), run(k + 1))
  }

  /** No compare_exchange_weak of thread `t` fails without need. */
  ghost predicate NeverSpurious(run: nat -> State, t: Tid) {
    forall k: nat :: t in run(k).threads && t in run(k + 1).threads && run(k).threads[t].pc == RaiseCas ==>
      run(k + 1).threads[t] != run(k).threads[t]
  }

  function Prefix(run: nat -> State, n: nat): (r: seq<State>)
    ensures |r| == n + 1 && forall k :: 0 <= k <= n ==> r[k] == run(k)
  {
    seq(n + 1, k requires k >= 0 => run(k))
  }

  lemma PrefixRuns(c: Config, run: nat -> State, n: nat)
    requires Endless(c, run)
    ensures IsRun(c, Prefix(run, n))
  {
    hide Next, Init;
    var r := Prefix(run, n);
    forall i | 0 <= i < |r| - 1 ensures Next(c, r[i], r[i + 1]) {
      assert Next(c, run(i), run(i + 1));
    }
  }

  /** While a call is in flight in such a run, every step is its own. */
  lemma OwnStep(c: Config, s: State, s': State, t: Tid) returns (ch: Choice)
    requires Inv(c, s) && Next(c, s, s') && OneCall(s) && OneCall(s') && t in s.threads && s.threads[t].pc != Idle
    ensures t in s'.threads && Step(c, s, t, ch) == Some(s')
  {
    hide Inv, Step;
    var u, choice :| Step(c, s, u, choice) == Some(s');
    OneActor(c, s, s', u, choice);
    ch := choice;
  }

  ghost predicate NoOverlap(run: nat -> State) { forall k: nat :: OneCall(run(k)) }

  ghost function RankAt(c: Config, run: nat -> State, k: nat, t: Tid): Rank
    requires t in run(k).threads
  {
    RankOf(c, run(k), run(k).threads[t])
  }

  lemma GoesDown(c: Config, run: nat -> State, k: nat, t: Tid)
    requires ValidConfig(c) && Endless(c, run) && NeverSpurious(run, t) && NoOverlap(run)
    requires t in run(k).threads && run(k).threads[t].pc != Idle
    ensures t in run(k + 1).threads
    ensures run(k + 1).threads[t].pc == Idle || Below(RankAt(c, run, k + 1, t), RankAt(c, run, k, t))
  {
    hide Inv, Init, IsRun, Next, OneCall, RankOf, Below;
    var s, s', r := run(k), run(k + 1), Prefix(run, k + 1);
    PrefixRuns(c, run, k + 1);
    Reachable(c, r, k);
    assert Next(c, s, s') && OneCall(s) && OneCall(s');
    var ch := OwnStep(c, s, s', t);
    hide Endless;
    assert Sequential(r, k) && Sequential(r, k + 1);
    SequentialUpdates(c, r, k, t);
    SequentialUpdates(c, r, k + 1, t);
    StepFalls(c, s, t, ch, s');
  }

  /**
   * In an endless run whose calls do not overlap every call returns, provided that its
   * compare_exchange_weak does not fail spuriously.
   */
  lemma {:induction false} CallsReturn(c: Config, run: nat -> State, from: nat, t: Tid) returns (to: nat)
    requires ValidConfig(c) && Endless(c, run) && NeverSpurious(run, t) && NoOverlap(run)
    requires t in run(from).threads
    ensures from <= to && t in run(to).threads && run(to).threads[t].pc == Idle
    decreases RankAt(c, run, from, t).phase, RankAt(c, run, from, t).major, RankAt(c, run, from, t).minor
  {
    hide Endless, NeverSpurious, NoOverlap, RankOf;
    if run(from).threads[t].pc == Idle {
      to := from;
    } else {
      GoesDown(c, run, from, t);
      if run(from + 1).threads[t].pc == Idle { to := from + 1; } else { to := CallsReturn(c, run, from + 1, t); }
    }
  }

  /** A call that runs alone always has an enabled step: nobody holds a mutex it waits for. */
  lemma LoneCanStep(c: Config, s: State, t: Tid)
    requires Inv(c, s) && Alone(s, t)
    ensures CanStep(c, s, t)
  {
    hide HeapInv, LogOk, SizeOk, CallLogged, CallPast, AgentsKnown, PhaseOk, TransitMine, AnswerOk, LocksMatch, Step;
    var th := s.threads[t];
    assert ThreadOk(c, s.heap, t, th);
    if th.pc != Acquire {
      NeverStuck(c, s, t);
    } else {
      var n := th.targets[th.taken];
      assert n !in th.targets[..th.taken];
      forall u | u in s.threads ensures n !in s.threads[u].locks {
        assert ThreadOk(c, s.heap, u, s.threads[u]);
      }
      if s.heap[n].owner.Some? { HolderKnown(c, s, n, s.heap[n].owner.value); }
      assert AcquireNext(s, t, th).Some?;
      assert Step(c, s, t, Choice(Snapshot([]), 0, NULL, false)).Some? by { AcquireSteps(c, s, t); }
    }
  }

  lemma AcquireSteps(c: Config, s: State, t: Tid)
    requires t in s.threads && s.threads[t].pc == Acquire && AcquireNext(s, t, s.threads[t]).Some?
    ensures Step(c, s, t, Choice(Snapshot([]), 0, NULL, false)).Some?
  {
  }
}
