/**
 * What the upkeep of current_level_ achieves.
 *
 * A recompute stores a level above which it has seen the head lead nowhere, and a raise
 * does not end before the level has been high enough. Between concurrent calls that is all;
 * when calls do not overlap, current_level_ is never below a level in use, and no update
 * ever tries again.
 */
module SkipListLevels {
  import opened Wrappers
  import opened SkipListMachine
  import opened SkipListHeap
  import opened SkipListThreads
  import opened SkipListSafety
  import opened SkipListCalls
  import opened SkipListTheorems
  import opened SkipListLone

  // ------------------------------------------------------------------- the flow of control

  /** Where a thread can be after a step. */
  function Successors(pc: Pc, cont: Pc): set<Pc> {
    match pc
    case Idle => {ReadLevel, WalkLoad, Done}
    case ReadLevel => {Descend}
    case Descend => {Descend, Decide}
    case Decide => {Acquire, WalkLoad, Done}
    case Acquire => {Acquire, cont}
    case Release => {Release, cont}
    case CheckMarked => {CheckLinked, Release}
    case CheckLinked => {WriteValue, Release}
    case WriteValue => {Release}
    case InsertPred => {InsertSucc, Release}
    case InsertSucc => {InsertForward, Release}
    case InsertForward => {InsertPred, Alloc, Release}
    case Alloc => {Link}
    case Link => {Link, SetLinked}
    case SetLinked => {AddSize}
    case AddSize => {RaiseLoad}
    case RaiseLoad => {RaiseCas}
    case RaiseCas => {RaiseCas, Release}
    case VictimLinked => {VictimMarked, Release}
    case VictimMarked => {DeletePred, Release}
    case DeletePred => {DeleteForward, Release}
    case DeleteForward => {DeletePred, Mark, Release}
    case Mark => {UnlinkLoad}
    case UnlinkLoad => {UnlinkStore}
    case UnlinkStore => {UnlinkLoad, SubSize}
    case SubSize => {Recompute}
    case Recompute => {Recompute, StoreLevel}
    case StoreLevel => {Release}
    case WalkLoad => {WalkMarked, Done}
    case WalkMarked => {WalkLinked, WalkLoad, Done}
    case WalkLinked => {Acquire, WalkLoad, Done}
    case WalkMarkedAgain => {WalkLinkedAgain, Release}
    case WalkLinkedAgain => {WalkRead, Release}
    case WalkRead => {Release}
    case Done => {Idle}
  }

  predicate Flows(th: Thread, th': Thread) { th'.pc in Successors(th.pc, th.cont) }

  ghost predicate SameHead(c: Config, h: Heap, h': Heap) {
    c.head in h ==> c.head in h' && h'[c.head].forward == h[c.head].forward
  }

  /** Two steps store into a node's pointers, two into current_level_. */
  ghost predicate Moves(c: Config, s: State, t: Tid, s': State) {
    && t in s.threads && t in s'.threads && Flows(s.threads[t], s'.threads[t])
    && (s.threads[t].pc !in {Link, UnlinkStore} ==> SameHead(c, s.heap, s'.heap))
    && (s.threads[t].pc !in {RaiseCas, StoreLevel} ==> s'.level == s.level)
  }

  lemma FlowSearch(c: Config, s: State, t: Tid, ch: Choice, s': State)
    requires t in s.threads && t in s'.threads && Step(c, s, t, ch) == Some(s')
    requires s.threads[t].pc in {Idle, ReadLevel, Descend, Decide, Acquire, Release, Done}
    ensures Moves(c, s, t, s')
  {
    var th := s.threads[t];
    match th.pc {
      case Idle => assert Invoke(c, s, t, th, ch) == Some(s');
      case ReadLevel => assert StartDescent(c, s, t, th) == Some(s');
      case Descend => assert DescendOnce(c, s, t, th) == Some(s');
      case Decide => assert DecideNext(c, s, t, th, ch) == Some(s');
      case Acquire => assert AcquireNext(s, t, th) == Some(s');
      case Release => assert ReleaseOne(s, t, th, ch) == Some(s');
      case Done => assert Local(s, t, th.(pc := Idle)) == Some(s');
    }
    hide Step;
  }

  lemma FlowInsert(c: Config, s: State, t: Tid, ch: Choice, s': State)
    requires t in s.threads && t in s'.threads && Step(c, s, t, ch) == Some(s')
    requires s.threads[t].pc in {CheckMarked, CheckLinked, WriteValue, InsertPred, InsertSucc, InsertForward, Alloc}
    ensures Moves(c, s, t, s')
  {
    var th := s.threads[t];
    match th.pc {
      case CheckMarked => assert StepCheckMarked(s, t, th) == Some(s');
      case CheckLinked => assert StepCheckLinked(s, t, th) == Some(s');
      case WriteValue => assert StepWriteValue(s, t, th) == Some(s');
      case InsertPred => assert StepInsertPred(s, t, th) == Some(s');
      case InsertSucc => assert StepInsertSucc(s, t, th) == Some(s');
      case InsertForward => assert StepInsertForward(s, t, th) == Some(s');
      case Alloc => assert StepAlloc(s, t, th, ch) == Some(s');
    }
    hide Step;
  }

  lemma FlowFinish(c: Config, s: State, t: Tid, ch: Choice, s': State)
    requires t in s.threads && t in s'.threads && Step(c, s, t, ch) == Some(s')
    requires s.threads[t].pc in {Link, SetLinked, AddSize, RaiseLoad, RaiseCas, SubSize, Recompute, StoreLevel}
    ensures Moves(c, s, t, s')
  {
    var th := s.threads[t];
    match th.pc {
      case Link => assert StepLink(s, t, th) == Some(s');
      case SetLinked => assert StepSetLinked(s, t, th) == Some(s');
      case AddSize => assert StepAddSize(s, t, th) == Some(s');
      case RaiseLoad => assert StepRaiseLoad(s, t, th) == Some(s');
      case RaiseCas => assert StepRaiseCas(s, t, th, ch) == Some(s');
      case SubSize => assert StepSubSize(c, s, t, th) == Some(s');
      case Recompute => assert StepRecompute(c, s, t, th) == Some(s');
      case StoreLevel => assert StepStoreLevel(s, t, th) == Some(s');
    }
    hide Step;
  }

  lemma FlowDelete(c: Config, s: State, t: Tid, ch: Choice, s': State)
    requires t in s.threads && t in s'.threads && Step(c, s, t, ch) == Some(s')
    requires s.threads[t].pc in {VictimLinked, VictimMarked, DeletePred, DeleteForward, Mark, UnlinkLoad, UnlinkStore}
    ensures Moves(c, s, t, s')
  {
    var th := s.threads[t];
    match th.pc {
      case VictimLinked => assert StepVictimLinked(s, t, th) == Some(s');
      case VictimMarked => assert StepVictimMarked(c, s, t, th) == Some(s');
      case DeletePred => assert StepDeletePred(s, t, th) == Some(s');
      case DeleteForward => assert StepDeleteForward(s, t, th) == Some(s');
      case Mark => assert StepMark(s, t, th) == Some(s');
      case UnlinkLoad => assert StepUnlinkLoad(s, t, th) == Some(s');
      case UnlinkStore => assert StepUnlinkStore(s, t, th) == Some(s');
    }
    hide Step;
  }

  lemma FlowWalk(c: Config, s: State, t: Tid, ch: Choice, s': State)
    requires t in s.threads && t in s'.threads && Step(c, s, t, ch) == Some(s')
    requires s.threads[t].pc in {WalkLoad, WalkMarked, WalkLinked, WalkMarkedAgain, WalkLinkedAgain, WalkRead}
    ensures Moves(c, s, t, s')
  {
    var th := s.threads[t];
    match th.pc {
      case WalkLoad => assert StepWalkLoad(c, s, t, th) == Some(s');
      case WalkMarked => assert StepWalkMarked(s, t, th) == Some(s');
      case WalkLinked => assert StepWalkLinked(s, t, th) == Some(s');
      case WalkMarkedAgain => assert StepWalkMarkedAgain(s, t, th) == Some(s');
      case WalkLinkedAgain => assert StepWalkLinkedAgain(s, t, th) == Some(s');
      case WalkRead => assert StepWalkRead(s, t, th) == Some(s');
    }
    hide Step;
  }

  /** Every step follows the flow of control. */
  lemma StepFlows(c: Config, s: State, t: Tid, ch: Choice, s': State)
    requires t in s.threads && t in s'.threads && Step(c, s, t, ch) == Some(s')
    ensures Moves(c, s, t, s')
  {
    hide Step, Moves;
    match s.threads[t].pc {
      case Idle | ReadLevel | Descend | Decide | Acquire | Release | Done => FlowSearch(c, s, t, ch, s');
      case CheckMarked | CheckLinked | WriteValue | InsertPred | InsertSucc | InsertForward | Alloc =>
        FlowInsert(c, s, t, ch, s');
      case Link | SetLinked | AddSize | RaiseLoad | RaiseCas | SubSize | Recompute | StoreLevel =>
        FlowFinish(c, s, t, ch, s');
      case VictimLinked | VictimMarked | DeletePred | DeleteForward | Mark | UnlinkLoad | UnlinkStore =>
        FlowDelete(c, s, t, ch, s');
      case _ => FlowWalk(c, s, t, ch, s');
    }
  }

  // ------------------------------------------------------------ what a recompute has seen

  /** Thread `t` is at one of the given points from state `from` to state `i`. */
  ghost predicate StaysAt(run: seq<State>, from: nat, i: nat, t: Tid, pcs: set<Pc>) {
    from <= i < |run| && forall k :: from <= k <= i ==> t in run[k].threads && run[k].threads[t].pc in pcs
  }

  /** The pointer of the head at level `l` was null, or not, at some moment. */
  ghost predicate HeadAtSome(c: Config, run: seq<State>, from: nat, i: nat, l: nat, isNull: bool) {
    exists k :: from <= k <= i < |run| && HeadIs(c, run[k].heap, l, isNull)
  }

  ghost predicate HeadIs(c: Config, h: Heap, l: nat, isNull: bool) {
    HasLevel(h, c.head, l) && (h[c.head].forward[l] == NULL <==> isNull)
  }

  const RECOMPUTING: set<Pc> := {Recompute, StoreLevel}

  /** What the recompute of thread `t`, begun in state `from`, has seen so far. */
  ghost predicate HasSeen(c: Config, run: seq<State>, from: nat, i: nat, t: Tid)
    requires i < |run| && t in run[i].threads
  {
    var th := run[i].threads[t];
    && StaysAt(run, from, i, t, RECOMPUTING) && run[from].threads[t].pc == Recompute
    && 1 <= th.level <= c.maxLevel
    && (forall l :: th.level <= l < c.maxLevel ==> HeadAtSome(c, run, from, i, l, true))
    && (th.pc == StoreLevel ==> th.level == 1 || HeadAtSome(c, run, from, i, th.level - 1, false))
  }

  lemma SomeLater(c: Config, run: seq<State>, from: nat, i: nat, l: nat, isNull: bool)
    requires HeadAtSome(c, run, from, i, l, isNull) && i + 1 < |run|
    ensures HeadAtSome(c, run, from, i + 1, l, isNull)
  {
    hide HeadIs;
  }

  /** Another thread acts, or nobody does anything to this one. */
  lemma SeenLater(c: Config, run: seq<State>, from: nat, i: nat, t: Tid)
    requires i + 1 < |run| && t in run[i].threads && t in run[i + 1].threads && HasSeen(c, run, from, i, t)
    requires run[i + 1].threads[t] == run[i].threads[t]
    ensures HasSeen(c, run, from, i + 1, t)
  {
    hide HeadAtSome;
    var th := run[i].threads[t];
    var next := i + 1;
    forall l: nat | th.level <= l < c.maxLevel ensures HeadAtSome(c, run, from, next, l, true) {
      SomeLater(c, run, from, i, l, true);
    }
    if th.pc == StoreLevel && th.level != 1 { SomeLater(c, run, from, i, th.level - 1, false); }
  }

  /** The recompute looks at one more pointer. */
  lemma SeenMore(c: Config, run: seq<State>, from: nat, i: nat, t: Tid, ch: Choice)
    requires i + 1 < |run| && t in run[i].threads && t in run[i + 1].threads && HasSeen(c, run, from, i, t)
    requires run[i].threads[t].pc == Recompute && Step(c, run[i], t, ch) == Some(run[i + 1])
    ensures HasSeen(c, run, from, i + 1, t)
  {
    hide HeadAtSome;
    var s, s', th, th' := run[i], run[i + 1], run[i].threads[t], run[i + 1].threads[t];
    assert StepRecompute(c, s, t, th) == Some(s');
    hide Step;
    var next := i + 1;
    forall l: nat | th.level <= l < c.maxLevel ensures HeadAtSome(c, run, from, next, l, true) {
      SomeLater(c, run, from, i, l, true);
    }
    if th.level > 1 {
      assert HasLevel(s.heap, c.head, th.level - 1);
      NowSeen(c, run, from, i, th.level - 1, s.heap[c.head].forward[th.level - 1] == NULL);
      SomeLater(c, run, from, i, th.level - 1, s.heap[c.head].forward[th.level - 1] == NULL);
    }
  }

  lemma NowSeen(c: Config, run: seq<State>, from: nat, i: nat, l: nat, isNull: bool)
    requires from <= i < |run| && HasLevel(run[i].heap, c.head, l)
    requires run[i].heap[c.head].forward[l] == NULL <==> isNull
    ensures HeadAtSome(c, run, from, i, l, isNull)
  {
    assert HeadIs(c, run[i].heap, l, isNull);
  }

  lemma SeenNothing(c: Config, run: seq<State>, i: nat, t: Tid)
    requires i < |run| && t in run[i].threads && run[i].threads[t].pc == Recompute
    requires run[i].threads[t].level == c.maxLevel && 1 <= c.maxLevel
    ensures HasSeen(c, run, i, i, t)
  {
  }

  /**
   * A recompute is about to store a level from which up the head led nowhere at some moment
   * of it, level by level, and which is 1 or the head led somewhere just below it at one.
   */
  lemma {:induction false} RecomputeSaw(c: Config, run: seq<State>, i: nat, t: Tid) returns (from: nat)
    requires ValidConfig(c) && IsRun(c, run) && i < |run| && t in run[i].threads && run[i].threads[t].pc in RECOMPUTING
    ensures HasSeen(c, run, from, i, t)
    decreases i
  {
    hide Inv, Step, Init, HasSeen, Flows;
    if i == 0 {
      InitIdle(c, run[0], t);
      assert false;
    } else {
      var s, s' := run[i - 1], run[i];
      Reachable(c, run, i - 1);
      assert Next(c, s, s');
      var u, ch := Actor(c, s, s', t);
      if u != t {
        from := RecomputeSaw(c, run, i - 1, t);
        SeenLater(c, run, from, i - 1, t);
      } else {
        StepFlows(c, s, t, ch, s');
        assert s.threads[t].pc in {SubSize, Recompute} by { OnlyFrom(c, s, t, s'.threads[t]); }
        if s.threads[t].pc == SubSize {
          from := i;
          Discounting(c, s, t, ch, s');
          SeenNothing(c, run, i, t);
        } else {
          from := RecomputeSaw(c, run, i - 1, t);
          SeenMore(c, run, from, i - 1, t, ch);
        }
      }
    }
  }

  lemma InitIdle(c: Config, s: State, t: Tid)
    requires Init(c, s) && t in s.threads
    ensures s.threads[t].pc == Idle
  {
  }

  /** A busy thread was there before, and either it acts or it stays as it is. */
  lemma Actor(c: Config, s: State, s': State, t: Tid) returns (u: Tid, ch: Choice)
    requires Inv(c, s) && Next(c, s, s') && t in s'.threads && s'.threads[t].pc != Idle
    ensures t in s.threads && Step(c, s, u, ch) == Some(s') && u in s.threads
    ensures u != t ==> s'.threads[t] == s.threads[t]
  {
    hide HeapInv, ThreadsOk, AgentsKnown, LogOk, SizeOk, CallLogged, CallPast, Step, KindOk;
    if v, choice :| Step(c, s, v, choice) == Some(s') {
      StepActs(c, s, v, choice);
      KindAt(c, s, v);
      StepFrame(c, s, v, choice, s');
      u, ch := v, choice;
    } else {
      assert false;
    }
  }

  lemma OnlyFrom(c: Config, s: State, t: Tid, th': Thread)
    requires Inv(c, s) && t in s.threads && Flows(s.threads[t], th')
    ensures th'.pc in RECOMPUTING ==> s.threads[t].pc in {SubSize, Recompute}
    ensures th'.pc == RaiseCas ==> s.threads[t].pc in {RaiseLoad, RaiseCas}
    ensures th'.pc == StoreLevel ==> s.threads[t].pc == Recompute
  {
    hide HeapInv, ThreadsOk, AgentsKnown, LogOk, SizeOk, CallLogged, CallPast, PutPcs, DeletePcs, ReadPcs;
    KindAt(c, s, t);
  }

  lemma Discounting(c: Config, s: State, t: Tid, ch: Choice, s': State)
    requires t in s.threads && t in s'.threads && Step(c, s, t, ch) == Some(s') && s.threads[t].pc == SubSize
    ensures s'.threads[t].pc == Recompute && s'.threads[t].level == c.maxLevel
  {
    assert StepSubSize(c, s, t, s.threads[t]) == Some(s');
    hide Step;
  }

  // ------------------------------------------------------------------ what a raise has seen

  /** The level the raise has observed was current_level_ at some moment of it. */
  lemma {:induction false} RaiseSaw(c: Config, run: seq<State>, i: nat, t: Tid) returns (from: nat, k: nat)
    requires ValidConfig(c) && IsRun(c, run) && i < |run| && t in run[i].threads && run[i].threads[t].pc == RaiseCas
    ensures from <= k <= i && StaysAt(run, from, i, t, {RaiseCas}) && run[k].level == run[i].threads[t].observed
    decreases i
  {
    hide Inv, Step, Init, Flows;
    if i == 0 {
      InitIdle(c, run[0], t);
      assert false;
    } else {
      var s, s' := run[i - 1], run[i];
      Reachable(c, run, i - 1);
      assert Next(c, s, s');
      var u, ch := Actor(c, s, s', t);
      if u != t {
        from, k := RaiseSaw(c, run, i - 1, t);
      } else {
        StepFlows(c, s, t, ch, s');
        assert s.threads[t].pc in {RaiseLoad, RaiseCas} by { OnlyFrom(c, s, t, s'.threads[t]); }
        Observing(c, s, t, ch, s');
        if s.threads[t].pc == RaiseLoad {
          from, k := i, i;
        } else {
          from, k := RaiseSaw(c, run, i - 1, t);
          k := i;
        }
      }
    }
  }

  lemma Observing(c: Config, s: State, t: Tid, ch: Choice, s': State)
    requires t in s.threads && t in s'.threads && Step(c, s, t, ch) == Some(s')
    requires s.threads[t].pc in {RaiseLoad, RaiseCas} && s'.threads[t].pc == RaiseCas
    ensures s'.threads[t].observed == s.level == s'.level
  {
    var th := s.threads[t];
    if th.pc == RaiseLoad {
      assert StepRaiseLoad(s, t, th) == Some(s');
    } else {
      assert StepRaiseCas(s, t, th, ch) == Some(s');
    }
    hide Step;
  }

  /** A raise does not end before current_level_ has been above the new node at some moment of it. */
  lemma RaiseReaches(c: Config, run: seq<State>, i: nat, t: Tid) returns (from: nat, k: nat)
    requires ValidConfig(c) && IsRun(c, run) && i + 1 < |run| && t in run[i].threads && t in run[i + 1].threads
    requires run[i].threads[t].pc == RaiseCas && run[i + 1].threads[t].pc != RaiseCas
    ensures from <= k <= i + 1 && StaysAt(run, from, i, t, {RaiseCas}) && run[k].level >= run[i].threads[t].top + 1
  {
    hide Inv, Step, Init, Flows;
    var s, s' := run[i], run[i + 1];
    Reachable(c, run, i);
    from, k := RaiseSaw(c, run, i, t);
    assert Next(c, s, s') && !AllIdle(s);
    var u, ch :| Step(c, s, u, ch) == Some(s');
    RaiseEnds(c, s, u, t, ch, s');
    if s.threads[t].observed < s.threads[t].top + 1 { k := i + 1; }
  }

  lemma RaiseEnds(c: Config, s: State, u: Tid, t: Tid, ch: Choice, s': State)
    requires Inv(c, s) && t in s.threads && t in s'.threads && Step(c, s, u, ch) == Some(s')
    requires s.threads[t].pc == RaiseCas && s'.threads[t].pc != RaiseCas
    ensures s.threads[t].observed >= s.threads[t].top + 1 || s'.level == s.threads[t].top + 1
  {
    hide HeapInv, ThreadsOk, AgentsKnown, LogOk, SizeOk, CallLogged, CallPast, KindOk;
    StepActs(c, s, u, ch);
    KindAt(c, s, u);
    StepFrame(c, s, u, ch, s');
    assert u == t && StepRaiseCas(s, t, s.threads[t], ch) == Some(s');
    hide Step;
  }

  // ------------------------------------------------------------- calls that do not overlap

  /** At most one call is in flight. */
  ghost predicate OneCall(s: State) {
    forall t, u :: t in s.threads && u in s.threads && t != u ==> s.threads[t].pc == Idle || s.threads[u].pc == Idle
  }

  /** Up to state `i` calls do not overlap. */
  ghost predicate Sequential(run: seq<State>, i: nat) { i < |run| && forall k :: 0 <= k <= i ==> OneCall(run[k]) }

  const RAISING: set<Pc> := {Link, SetLinked, AddSize, RaiseLoad, RaiseCas}

  function Higher(a: nat, b: nat): nat { if a < b then b else a }

  /** What a lone thread makes of current_level_: too low only while it links a node or recomputes. */
  ghost predicate FitsAt(c: Config, s: State, th: Thread) {
    if th.pc in RAISING then
      && HeadLeads(c, s.heap, Higher(s.level, th.top + 1), c.maxLevel, NULL)
      && (th.pc == RaiseCas ==> th.observed == s.level)
    else if th.pc in RECOMPUTING then HeadLeads(c, s.heap, th.level, c.maxLevel, NULL)
    else LevelFits(c, s)
  }

  ghost predicate SequentialOk(c: Config, s: State) {
    && (AllIdle(s) ==> LevelFits(c, s))
    && forall t :: Alone(s, t) ==> FitsAt(c, s, s.threads[t])
  }

  lemma LeadsKept(c: Config, h: Heap, h': Heap, level: nat, higher: nat)
    requires c.head in h && SameHead(c, h, h') && HeadLeads(c, h, level, c.maxLevel, NULL) && level <= higher
    ensures HeadLeads(c, h', higher, c.maxLevel, NULL)
  {
    forall l: nat | higher <= l < c.maxLevel && HasLevel(h', c.head, l) ensures h'[c.head].forward[l] == NULL {
      assert HasLevel(h, c.head, l);
    }
  }

  lemma FitsLink(c: Config, s: State, t: Tid, ch: Choice, s': State)
    requires c.head in s.heap && t in s.threads && t in s'.threads && Step(c, s, t, ch) == Some(s')
    requires s.threads[t].pc == Link && s.threads[t].level <= s.threads[t].top && FitsAt(c, s, s.threads[t])
    ensures FitsAt(c, s', s'.threads[t])
  {
    var th, th', h' := s.threads[t], s'.threads[t], s'.heap;
    assert StepLink(s, t, th) == Some(s');
    hide Step;
    forall l: nat | Higher(s.level, th.top + 1) <= l < c.maxLevel && HasLevel(h', c.head, l)
      ensures h'[c.head].forward[l] == NULL
    {
      assert HasLevel(s.heap, c.head, l);
    }
  }

  lemma FitsUnlink(c: Config, s: State, t: Tid, ch: Choice, s': State)
    requires HeapInv(c, s.heap) && ValidConfig(c)
    requires t in s.threads && t in s'.threads && Step(c, s, t, ch) == Some(s') && PcOk(c, s.heap, t, s.threads[t])
    requires s.threads[t].pc == UnlinkStore && FitsAt(c, s, s.threads[t])
    ensures FitsAt(c, s', s'.threads[t])
  {
    hide HeapInv, Found;
    var th, th', h' := s.threads[t], s'.threads[t], s'.heap;
    assert StepUnlinkStore(s, t, th) == Some(s');
    hide Step;
    var l := th.level - 1;
    HeadAt(c, s.heap);
    NodeAt(c, s.heap, th.node);
    assert s.heap[th.preds[l]].forward[l] == th.node && th.node != NULL by {
      assert HasLevel(s.heap, th.node, l);
      GuardAt(c, s.heap, th.node, l);
    }
    hide PcOk;
    forall j: nat | s.level <= j < c.maxLevel && HasLevel(h', c.head, j) ensures h'[c.head].forward[j] == NULL {
      assert HasLevel(s.heap, c.head, j);
    }
  }

  lemma FitsRaise(c: Config, s: State, t: Tid, ch: Choice, s': State)
    requires c.head in s.heap && t in s.threads && t in s'.threads && Step(c, s, t, ch) == Some(s')
    requires s.threads[t].pc in {SetLinked, AddSize, RaiseLoad, RaiseCas} && FitsAt(c, s, s.threads[t])
    ensures FitsAt(c, s', s'.threads[t])
  {
    hide HeadLeads;
    StepFlows(c, s, t, ch, s');
    var th := s.threads[t];
    LeadsKept(c, s.heap, s'.heap, Higher(s.level, th.top + 1), Higher(s.level, th.top + 1));
    match th.pc {
      case SetLinked => assert StepSetLinked(s, t, th) == Some(s');
      case AddSize => assert StepAddSize(s, t, th) == Some(s');
      case RaiseLoad => assert StepRaiseLoad(s, t, th) == Some(s');
      case RaiseCas => assert StepRaiseCas(s, t, th, ch) == Some(s');
    }
    hide Step;
  }

  lemma FitsRecompute(c: Config, s: State, t: Tid, ch: Choice, s': State)
    requires c.head in s.heap && t in s.threads && t in s'.threads && Step(c, s, t, ch) == Some(s')
    requires s.threads[t].pc in RECOMPUTING && FitsAt(c, s, s.threads[t])
    ensures FitsAt(c, s', s'.threads[t])
  {
    var th := s.threads[t];
    if th.pc == Recompute {
      assert StepRecompute(c, s, t, th) == Some(s');
    } else {
      assert StepStoreLevel(s, t, th) == Some(s');
    }
    hide Step;
  }

  /** The other steps leave current_level_ and the pointers of the head alone. */
  lemma FitsOther(c: Config, s: State, t: Tid, ch: Choice, s': State)
    requires c.head in s.heap && t in s.threads && t in s'.threads && Step(c, s, t, ch) == Some(s')
    requires KindOk(s.threads[t])
    requires s.threads[t].pc !in RAISING + RECOMPUTING + {UnlinkStore} && FitsAt(c, s, s.threads[t])
    ensures FitsAt(c, s', s'.threads[t])
  {
    hide Step, HeadLeads, SameHead, PutPcs, DeletePcs, ReadPcs;
    var th, th' := s.threads[t], s'.threads[t];
    StepFlows(c, s, t, ch, s');
    LeadsKept(c, s.heap, s'.heap, s.level, s.level);
    LeadsKept(c, s.heap, s'.heap, s.level, Higher(s.level, th'.top + 1));
    if th.pc == SubSize {
      Discounting(c, s, t, ch, s');
      EmptyRange(c, s'.heap);
    }
  }

  lemma EmptyRange(c: Config, h: Heap)
    ensures HeadLeads(c, h, c.maxLevel, c.maxLevel, NULL)
  {
  }

  lemma FitsStep(c: Config, s: State, t: Tid, ch: Choice, s': State)
    requires Inv(c, s) && t in s.threads && t in s'.threads && Step(c, s, t, ch) == Some(s')
    requires FitsAt(c, s, s.threads[t])
    ensures FitsAt(c, s', s'.threads[t])
  {
    hide HeapInv, ThreadsOk, AgentsKnown, LogOk, SizeOk, CallLogged, CallPast, Step, KindOk, FitsAt, PcOk;
    var th := s.threads[t];
    HeadAt(c, s.heap);
    KindAt(c, s, t);
    CoreThread(c, s, t);
    if th.pc == Link {
      assert th.level <= th.top by { LinkingPc(c, s.heap, t, th); }
      FitsLink(c, s, t, ch, s');
    } else if th.pc == UnlinkStore {
      FitsUnlink(c, s, t, ch, s');
    } else if th.pc in RAISING {
      FitsRaise(c, s, t, ch, s');
    } else if th.pc in RECOMPUTING {
      FitsRecompute(c, s, t, ch, s');
    } else {
      FitsOther(c, s, t, ch, s');
    }
  }

  lemma LinkingPc(c: Config, h: Heap, t: Tid, th: Thread)
    requires PcOk(c, h, t, th) && th.pc == Link
    ensures th.level <= th.top
  {
    hide Found;
  }

  /** A step of a run without overlap is that of the one call in flight, or begins a call. */
  lemma OneActor(c: Config, s: State, s': State, t: Tid, ch: Choice)
    requires Inv(c, s) && OneCall(s) && OneCall(s') && Step(c, s, t, ch) == Some(s')
    ensures t in s.threads && t in s'.threads && s'.threads == s.threads[t := s'.threads[t]]
    ensures if s.threads[t].pc == Idle then AllIdle(s) && Alone(s', t) else Alone(s, t)
  {
    hide HeapInv, ThreadsOk, AgentsKnown, LogOk, SizeOk, CallLogged, CallPast, Step, KindOk;
    StepActs(c, s, t, ch);
    KindAt(c, s, t);
    StepFrame(c, s, t, ch, s');
    if s.threads[t].pc == Idle {
      InvokeBusies(c, s, t, ch, s');
      forall u | u in s.threads && u != t ensures s.threads[u].pc == Idle && s'.threads[u].pc == Idle {
        assert s'.threads[u] == s.threads[u] && s'.threads[t].pc != Idle;
      }
    } else {
      forall u | u in s.threads && u != t ensures s.threads[u].pc == Idle {
        assert s.threads[t].pc != Idle;
      }
    }
  }

  lemma SequentialStep(c: Config, s: State, s': State)
    requires Inv(c, s) && Next(c, s, s') && OneCall(s) && OneCall(s') && SequentialOk(c, s)
    ensures SequentialOk(c, s')
  {
    hide Inv, Step, FitsAt;
    if t, ch :| Step(c, s, t, ch) == Some(s') {
      OneActor(c, s, s', t, ch);
      assert FitsAt(c, s, s.threads[t]) by { IdleFits(c, s, t); }
      FitsStep(c, s, t, ch, s');
      IdleFits(c, s', t);
    } else {
      ClearFits(c, s);
    }
  }

  lemma IdleFits(c: Config, s: State, t: Tid)
    requires t in s.threads
    ensures s.threads[t].pc == Idle ==> (FitsAt(c, s, s.threads[t]) <==> LevelFits(c, s))
  {
    hide HeadLeads;
  }

  lemma ClearFits(c: Config, s: State)
    ensures LevelFits(c, Clear(c, s))
  {
  }

  lemma {:induction false} SequentialRun(c: Config, run: seq<State>, i: nat)
    requires ValidConfig(c) && IsRun(c, run) && Sequential(run, i)
    ensures SequentialOk(c, run[i])
    decreases i
  {
    hide Inv, SequentialOk, Next, OneCall;
    if i == 0 {
      InitFits(c, run[0]);
    } else {
      SequentialRun(c, run, i - 1);
      Reachable(c, run, i - 1);
      assert Next(c, run[i - 1], run[i]) && OneCall(run[i - 1]) && OneCall(run[i]);
      SequentialStep(c, run[i - 1], run[i]);
    }
  }

  lemma InitFits(c: Config, s: State)
    requires Init(c, s)
    ensures SequentialOk(c, s)
  {
  }

  /**
   * In a run whose calls do not overlap, current_level_ is never below a level in use
   * while no call is in flight.
   */
  lemma SequentialFits(c: Config, run: seq<State>, i: nat)
    requires ValidConfig(c) && IsRun(c, run) && Sequential(run, i) && AllIdle(run[i])
    ensures LevelFits(c, run[i])
  {
    hide IsRun, HeadLeads;
    SequentialRun(c, run, i);
  }

  /** An update in flight has run alone since it began, when current_level_ was not too low. */
  lemma {:induction false} UpdateBegan(c: Config, run: seq<State>, i: nat, t: Tid) returns (from: nat)
    requires ValidConfig(c) && IsRun(c, run) && Sequential(run, i) && t in run[i].threads
    requires run[i].threads[t].pc != Idle && (run[i].threads[t].call.Put? || run[i].threads[t].call.Delete?)
    ensures AloneFrom(run, from, i, t) && run[from].threads[t].pc == ReadLevel && LevelFits(c, run[from])
    ensures run[from].threads[t].call == run[i].threads[t].call
    decreases i
  {
    hide Inv, Step, Init, OneCall, LevelFits;
    if i == 0 {
      InitIdle(c, run[0], t);
      assert false;
    } else {
      var s, s' := run[i - 1], run[i];
      Reachable(c, run, i - 1);
      assert Next(c, s, s') && OneCall(s) && OneCall(s');
      var u, ch := Actor(c, s, s', t);
      OneActor(c, s, s', u, ch);
      assert u == t;
      if s.threads[t].pc == Idle {
        from := i;
        UpdateStarts(c, s, t, ch, s');
        SequentialRun(c, run, i);
        AtStart(c, s', t);
      } else {
        assert s'.threads[t].call == s.threads[t].call by { KeepsKind(c, s, t, ch, s'); }
        from := UpdateBegan(c, run, i - 1, t);
        assert Alone(s', t);
      }
    }
  }

  lemma UpdateStarts(c: Config, s: State, t: Tid, ch: Choice, s': State)
    requires t in s.threads && t in s'.threads && Step(c, s, t, ch) == Some(s') && s.threads[t].pc == Idle
    requires s'.threads[t].call.Put? || s'.threads[t].call.Delete?
    ensures s'.threads[t].pc == ReadLevel
  {
    assert Invoke(c, s, t, s.threads[t], ch) == Some(s');
    hide Step;
  }

  lemma AtStart(c: Config, s: State, t: Tid)
    requires SequentialOk(c, s) && Alone(s, t) && s.threads[t].pc == ReadLevel
    ensures LevelFits(c, s)
  {
    hide HeadLeads;
  }

  lemma KeepsKind(c: Config, s: State, t: Tid, ch: Choice, s': State)
    requires Inv(c, s) && t in s.threads && t in s'.threads && Step(c, s, t, ch) == Some(s')
    requires s.threads[t].pc != Idle && s'.threads[t].pc != Idle
    ensures s'.threads[t].call == s.threads[t].call
  {
    hide HeapInv, ThreadsOk, AgentsKnown, LogOk, SizeOk, CallLogged, CallPast, Step, KindOk;
    KindAt(c, s, t);
    assert CallLogged(s, t);
    SameKind(c, s, t, ch, s');
  }

  /** In a run whose calls do not overlap no Put and no Delete ever tries again. */
  lemma SequentialUpdates(c: Config, run: seq<State>, i: nat, t: Tid)
    requires ValidConfig(c) && IsRun(c, run) && Sequential(run, i) && t in run[i].threads
    ensures !Retrying(run[i].threads[t])
  {
    hide IsRun, Inv, LevelFits, OneCall, AloneFrom;
    var th := run[i].threads[t];
    if Retrying(th) {
      Reachable(c, run, i);
      assert th.call.Put? || th.call.Delete? by { RetryKind(c, run[i], t); }
      var from := UpdateBegan(c, run, i, t);
      LoneUpdate(c, run, from, i, t);
    }
  }

  lemma RetryKind(c: Config, s: State, t: Tid)
    requires Inv(c, s) && t in s.threads && Retrying(s.threads[t])
    ensures s.threads[t].call.Put? || s.threads[t].call.Delete?
  {
    hide HeapInv, ThreadsOk, AgentsKnown, LogOk, SizeOk, CallLogged, CallPast;
    KindAt(c, s, t);
  }
}
