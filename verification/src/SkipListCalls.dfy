/** What each call in flight knows about the log of map changes and about the past. */
module SkipListCalls {
  import opened Wrappers
  import opened Bytes
  import opened SkipListMachine
  import opened SkipListHeap
  import opened SkipListThreads
  import opened SkipListSteps
  import opened SkipListHistory
  import opened SkipListSafety

  // ------------------------------------------------------- calls and the log

  /** The call has passed the step that changes the map. */
  predicate Linearized(th: Thread) {
    || th.pc in {AddSize, RaiseLoad, RaiseCas, UnlinkLoad, UnlinkStore, SubSize, Recompute, StoreLevel}
    || (th.pc == Release && th.cont == Done && (th.call.Put? || th.call.Delete?))
    || (th.pc == Done && (th.call.Put? || (th.call.Delete? && th.ret)))
  }

  predicate LinOk(th: Thread) {
    && (th.lin.Some? <==> Linearized(th))
    && (th.call.Delete? ==> th.lin.Some? == th.ret)
  }

  /** Exactly one entry of the log since the invocation is this call's, and only once it is linearized. */
  ghost predicate EntryOk(log: seq<Event>, t: Tid, th: Thread) {
    && th.logged <= |log|
    && (th.lin.Some? ==> th.logged <= th.lin.value < |log| && log[th.lin.value] == Update(t, th.call, th.ret))
    && forall i :: th.logged <= i < |log| && log[i].Update? && log[i].tid == t ==> th.lin == Some(i)
  }

  function PutPcs(): set<Pc> {
    {CheckMarked, CheckLinked, WriteValue, InsertPred, InsertSucc, InsertForward, Alloc, Link, SetLinked,
     AddSize, RaiseLoad, RaiseCas}
  }

  function DeletePcs(): set<Pc> {
    {VictimLinked, VictimMarked, DeletePred, DeleteForward, Mark, UnlinkLoad, UnlinkStore, SubSize,
     Recompute, StoreLevel}
  }

  function ReadPcs(): set<Pc> {
    {WalkLoad, WalkMarked, WalkLinked, WalkMarkedAgain, WalkLinkedAgain, WalkRead}
  }

  /** Which calls can be at which program counter. */
  predicate KindOk(th: Thread) {
    var pc := if th.pc == Acquire then th.cont else th.pc;
    && (pc in PutPcs() ==> th.call.Put?)
    && (pc in DeletePcs() ==> th.call.Delete?)
    && (pc in ReadPcs() ==> !th.call.Put? && !th.call.Delete?)
    && (th.pc == Release ==> th.cont in {ReadLevel, Done, WalkLoad})
    && (th.pc == Release && th.cont == WalkLoad ==> !th.call.Put? && !th.call.Delete?)
    && (th.pc == Acquire ==> th.cont in {CheckMarked, InsertPred, VictimLinked, WalkMarkedAgain})
    && (th.pc == Release && th.cont == ReadLevel ==> th.call.Put? || th.call.Delete?)
  }

  lemma KindOf(c: Config, h: Heap, t: Tid, th: Thread)
    requires PcOk(c, h, t, th)
    ensures KindOk(th)
  {
    hide Found, Before, Reached, InsertValid, VictimValid, LocksMatch;
    if th.pc == Acquire {
      KindOfPhase(c, h, t, th, th.cont, Elems(th.targets));
    } else if th.pc !in {Idle, Done, ReadLevel, Descend, Decide, Release, WalkLoad, WalkMarked, WalkLinked} {
      KindOfPhase(c, h, t, th, th.pc, th.locks);
    }
    hide PhaseOk;
  }

  lemma KindOfPhase(c: Config, h: Heap, t: Tid, th: Thread, pc: Pc, locks: set<Addr>)
    requires PhaseOk(c, h, t, th, pc, locks)
    ensures (pc in PutPcs() ==> th.call.Put?) && (pc in DeletePcs() ==> th.call.Delete?)
    ensures (pc in ReadPcs() ==> !th.call.Put? && !th.call.Delete?)
  {
    hide Found, Before, Reached, InsertValid, VictimValid, PredUnmarked, Live;
    if pc in PutPcs() {
      assert th.call.Put?;
    } else if pc in DeletePcs() {
      assert th.call.Delete?;
    } else if pc in ReadPcs() {
      assert Looking(c, h, th);
    }
  }

  /** Everything but the three linearizing steps, returning and invoking. */
  ghost predicate KeepsCall(th: Thread, th': Thread) {
    && th'.call == th.call && th'.began == th.began && th'.logged == th.logged && th'.lin == th.lin
    && (th.lin.Some? ==> th'.ret == th.ret) && LinOk(th') && th'.pc != Idle
    && (th'.result == th.result || th.pc == WalkRead)
    && (th'.pc == Descend ==> th.pc in {ReadLevel, Descend}) && (th'.pc == Decide ==> th.pc == Descend)
    && (th'.pc == Done && th'.call.Delete? && !th'.ret ==> th.pc == Decide)
  }

  lemma CallSearch(c: Config, s: State, t: Tid, ch: Choice, s': State)
    requires Step(c, s, t, ch) == Some(s') && KindOk(s.threads[t]) && LinOk(s.threads[t])
    requires s.threads[t].pc in {ReadLevel, Descend, Decide}
    ensures KeepsCall(s.threads[t], s'.threads[t])
  {
    var th := s.threads[t];
    match th.pc {
      case ReadLevel => assert StartDescent(c, s, t, th) == Some(s');
      case Descend => assert DescendOnce(c, s, t, th) == Some(s');
      case Decide => assert DecideNext(c, s, t, th, ch) == Some(s');
    }
  }

  lemma CallLocks(c: Config, s: State, t: Tid, ch: Choice, s': State)
    requires Step(c, s, t, ch) == Some(s') && KindOk(s.threads[t]) && LinOk(s.threads[t])
    requires s.threads[t].pc in {Acquire, Release}
    ensures KeepsCall(s.threads[t], s'.threads[t])
  {
    var th := s.threads[t];
    match th.pc {
      case Acquire => assert AcquireNext(s, t, th) == Some(s');
      case Release => assert ReleaseOne(s, t, th, ch) == Some(s');
    }
  }

  lemma CallChecks(c: Config, s: State, t: Tid, ch: Choice, s': State)
    requires Step(c, s, t, ch) == Some(s') && KindOk(s.threads[t]) && LinOk(s.threads[t])
    requires s.threads[t].pc in {CheckMarked, CheckLinked, VictimLinked, VictimMarked}
    ensures KeepsCall(s.threads[t], s'.threads[t])
  {
    hide KindOk;
    var th := s.threads[t];
    match th.pc {
      case CheckMarked => assert StepCheckMarked(s, t, th) == Some(s');
      case CheckLinked => assert StepCheckLinked(s, t, th) == Some(s');
      case VictimLinked => assert StepVictimLinked(s, t, th) == Some(s');
      case VictimMarked => assert StepVictimMarked(c, s, t, th) == Some(s');
    }
  }

  lemma CallInsert(c: Config, s: State, t: Tid, ch: Choice, s': State)
    requires Step(c, s, t, ch) == Some(s') && KindOk(s.threads[t]) && LinOk(s.threads[t])
    requires s.threads[t].pc in {InsertPred, InsertSucc, InsertForward}
    ensures KeepsCall(s.threads[t], s'.threads[t])
  {
    hide KindOk;
    var th := s.threads[t];
    if th.pc == InsertPred {
      assert StepInsertPred(s, t, th) == Some(s');
    } else if th.pc == InsertSucc {
      assert StepInsertSucc(s, t, th) == Some(s');
    } else {
      assert StepInsertForward(s, t, th) == Some(s');
    }
    hide Step;
  }

  lemma CallDelete(c: Config, s: State, t: Tid, ch: Choice, s': State)
    requires Step(c, s, t, ch) == Some(s') && KindOk(s.threads[t]) && LinOk(s.threads[t])
    requires s.threads[t].pc in {DeletePred, DeleteForward, UnlinkLoad}
    ensures KeepsCall(s.threads[t], s'.threads[t])
  {
    hide KindOk;
    var th := s.threads[t];
    match th.pc {
      case DeletePred => assert StepDeletePred(s, t, th) == Some(s');
      case DeleteForward => assert StepDeleteForward(s, t, th) == Some(s');
      case UnlinkLoad => assert StepUnlinkLoad(s, t, th) == Some(s');
    }
  }

  lemma CallStores(c: Config, s: State, t: Tid, ch: Choice, s': State)
    requires Step(c, s, t, ch) == Some(s') && KindOk(s.threads[t]) && LinOk(s.threads[t])
    requires s.threads[t].pc in {Alloc, Link, UnlinkStore}
    ensures KeepsCall(s.threads[t], s'.threads[t])
  {
    hide KindOk;
    var th := s.threads[t];
    match th.pc {
      case Alloc => assert StepAlloc(s, t, th, ch) == Some(s');
      case Link => assert StepLink(s, t, th) == Some(s');
      case UnlinkStore => assert StepUnlinkStore(s, t, th) == Some(s');
    }
  }

  lemma CallCounters(c: Config, s: State, t: Tid, ch: Choice, s': State)
    requires Step(c, s, t, ch) == Some(s') && KindOk(s.threads[t]) && LinOk(s.threads[t])
    requires s.threads[t].pc in {AddSize, RaiseLoad, RaiseCas, SubSize, Recompute, StoreLevel}
    ensures KeepsCall(s.threads[t], s'.threads[t])
  {
    var th := s.threads[t];
    match th.pc {
      case AddSize => assert StepAddSize(s, t, th) == Some(s');
      case RaiseLoad => assert StepRaiseLoad(s, t, th) == Some(s');
      case RaiseCas => assert StepRaiseCas(s, t, th, ch) == Some(s');
      case SubSize => assert StepSubSize(c, s, t, th) == Some(s');
      case Recompute => assert StepRecompute(c, s, t, th) == Some(s');
      case StoreLevel => assert StepStoreLevel(s, t, th) == Some(s');
    }
  }

  lemma CallWalk(c: Config, s: State, t: Tid, ch: Choice, s': State)
    requires Step(c, s, t, ch) == Some(s') && KindOk(s.threads[t]) && LinOk(s.threads[t])
    requires s.threads[t].pc in {WalkLoad, WalkMarked, WalkLinked}
    ensures KeepsCall(s.threads[t], s'.threads[t])
  {
    var th := s.threads[t];
    match th.pc {
      case WalkLoad => assert StepWalkLoad(c, s, t, th) == Some(s');
      case WalkMarked => assert StepWalkMarked(s, t, th) == Some(s');
      case WalkLinked => assert StepWalkLinked(s, t, th) == Some(s');
    }
  }

  lemma CallReads(c: Config, s: State, t: Tid, ch: Choice, s': State)
    requires Step(c, s, t, ch) == Some(s') && KindOk(s.threads[t]) && LinOk(s.threads[t])
    requires s.threads[t].pc in {WalkMarkedAgain, WalkLinkedAgain, WalkRead}
    ensures KeepsCall(s.threads[t], s'.threads[t])
  {
    var th := s.threads[t];
    match th.pc {
      case WalkMarkedAgain => assert StepWalkMarkedAgain(s, t, th) == Some(s');
      case WalkLinkedAgain => assert StepWalkLinkedAgain(s, t, th) == Some(s');
      case WalkRead => assert StepWalkRead(s, t, th) == Some(s');
    }
  }

  lemma CallStep(c: Config, s: State, t: Tid, ch: Choice, s': State)
    requires Step(c, s, t, ch) == Some(s') && t in s.threads && KindOk(s.threads[t]) && LinOk(s.threads[t])
    requires s.threads[t].pc !in {Idle, Done, WriteValue, SetLinked, Mark}
    ensures KeepsCall(s.threads[t], s'.threads[t])
  {
    hide Step, KindOk, LinOk, KeepsCall;
    match s.threads[t].pc {
      case ReadLevel | Descend | Decide => CallSearch(c, s, t, ch, s');
      case Acquire | Release => CallLocks(c, s, t, ch, s');
      case CheckMarked | CheckLinked | VictimLinked | VictimMarked => CallChecks(c, s, t, ch, s');
      case InsertPred | InsertSucc | InsertForward => CallInsert(c, s, t, ch, s');
      case Alloc | Link | UnlinkStore => CallStores(c, s, t, ch, s');
      case AddSize | RaiseLoad | RaiseCas | SubSize | Recompute | StoreLevel => CallCounters(c, s, t, ch, s');
      case WalkLoad | WalkMarked | WalkLinked => CallWalk(c, s, t, ch, s');
      case WalkMarkedAgain | WalkLinkedAgain | WalkRead => CallReads(c, s, t, ch, s');
      case _ => CallDelete(c, s, t, ch, s');
    }
  }

  ghost predicate CallLogged(s: State, t: Tid) {
    t in s.threads && (s.threads[t].pc != Idle ==> LinOk(s.threads[t]) && EntryOk(s.log, t, s.threads[t]))
  }

  /** The three linearizing steps add this call's entry. */
  lemma LinearizeStep(c: Config, s: State, t: Tid, ch: Choice, s': State)
    requires Step(c, s, t, ch) == Some(s') && CallLogged(s, t) && KindOk(s.threads[t])
    requires s.threads[t].pc in {WriteValue, SetLinked, Mark}
    ensures CallLogged(s', t)
    ensures exists ret :: s'.log == s.log + [Update(t, s.threads[t].call, ret)]
    ensures var th, th' := s.threads[t], s'.threads[t];
            && th'.call == th.call && th'.began == th.began && th'.result == th.result
            && th'.pc in {Release, AddSize, UnlinkLoad}
  {
    hide KindOk;
    var th := s.threads[t];
    if th.pc == WriteValue {
      assert StepWriteValue(s, t, th) == Some(s');
      hide Step, CallLogged;
      LinearizeAs(s, t, s'.heap, Finish(th), false, s');
    } else if th.pc == SetLinked {
      assert StepSetLinked(s, t, th) == Some(s');
      hide Step, CallLogged;
      LinearizeAs(s, t, s'.heap, th.(pc := AddSize), true, s');
    } else {
      assert StepMark(s, t, th) == Some(s');
      hide Step, CallLogged;
      LinearizeAs(s, t, s'.heap, th.(pc := UnlinkLoad, level := th.top + 1), true, s');
    }
  }

  /** A step that logs the call leaves exactly its entry. */
  lemma LinearizeAs(s: State, t: Tid, h: Heap, th': Thread, ret: bool, s': State)
    requires CallLogged(s, t) && s.threads[t].pc in {WriteValue, SetLinked, Mark} && s' == Logged(s, t, h, th', ret)
    requires th'.call == s.threads[t].call && th'.logged == s.threads[t].logged
    requires th'.pc in {AddSize, UnlinkLoad} || (th'.pc == Release && th'.cont == Done && th'.call.Put?)
    requires th'.call.Delete? ==> ret
    ensures CallLogged(s', t) && s'.log == s.log + [Update(t, s.threads[t].call, ret)]
  {
    assert s.threads[t].lin.None?;
  }

  lemma KindAt(c: Config, s: State, t: Tid)
    requires Core(c, s) && t in s.threads
    ensures KindOk(s.threads[t])
  {
    hide HeapInv, AgentsKnown, PcOk, LocksMatch, TransitMine, KindOk;
    assert ThreadOk(c, s.heap, t, s.threads[t]);
    KindOf(c, s.heap, t, s.threads[t]);
  }

  lemma LoggedStep(c: Config, s: State, t: Tid, ch: Choice, s': State)
    requires Core(c, s) && Step(c, s, t, ch) == Some(s')
    requires forall u :: u in s.threads ==> CallLogged(s, u)
    ensures forall u :: u in s'.threads ==> CallLogged(s', u)
  {
    StepActs(c, s, t, ch);
    KindAt(c, s, t);
    assert Before'(c, s, t) by { assert ThreadOk(c, s.heap, t, s.threads[t]); }
    hide HeapInv, Core, Before', ThreadOk, LinOk, KindOk, CallLogged, Step, Evolves, RelyOthers;
    AnyStep(c, s, t, ch, s');
    assert CallLogged(s, t);
    LoggedActor(c, s, t, ch, s');
    LoggedOthers(c, s, t, ch, s');
  }

  lemma LoggedActor(c: Config, s: State, t: Tid, ch: Choice, s': State)
    requires Step(c, s, t, ch) == Some(s') && CallLogged(s, t) && KindOk(s.threads[t]) && t in s'.threads
    ensures CallLogged(s', t)
  {
    hide Step;
    var th := s.threads[t];
    if th.pc in {WriteValue, SetLinked, Mark} {
      LinearizeStep(c, s, t, ch, s');
    } else if th.pc in {Idle, Done} {
      IdleStep(c, s, t, ch, s');
    } else {
      CallStep(c, s, t, ch, s');
      QuietSteps(c, s, t, ch, s');
    }
  }

  lemma IdleStep(c: Config, s: State, t: Tid, ch: Choice, s': State)
    requires Step(c, s, t, ch) == Some(s') && CallLogged(s, t) && s.threads[t].pc in {Idle, Done}
    ensures CallLogged(s', t)
  {
  }

  lemma LoggedOthers(c: Config, s: State, t: Tid, ch: Choice, s': State)
    requires Step(c, s, t, ch) == Some(s') && Establishes(c, s, s', t) && CallLogged(s, t) && KindOk(s.threads[t])
    requires forall u :: u in s.threads ==> CallLogged(s, u)
    ensures forall u :: u in s'.threads && u != t ==> CallLogged(s', u)
  {
    hide Step, HeapInv, ThreadOk, Evolves, Rely, LinOk;
    if s.threads[t].pc in {WriteValue, SetLinked, Mark} {
      LinearizeStep(c, s, t, ch, s');
    } else {
      QuietSteps(c, s, t, ch, s');
    }
    forall u | u in s'.threads && u != t ensures CallLogged(s', u) {
      assert CallLogged(s, u);
    }
  }

  // ------------------------------------------------------- calls and the past

  /** What a call in flight can say about the moments since its invocation. */
  ghost predicate CallPast(c: Config, s: State, t: Tid) {
    t in s.threads &&
    var th := s.threads[t];
    th.pc != Idle ==>
      && Hindsight(c, s.heap, s.past, th.began, th.call.key)
      && (th.pc == Descend ==> SeenIn(s.past, th.began, th.pred))
      && (th.pc == Decide && th.found.None? ==> AbsentIn(s.past, th.began, th.call.key))
      && (th.pc == Done && th.call.Delete? && !th.ret ==> AbsentIn(s.past, th.began, th.call.key))
      && (forall i :: 0 <= i < |th.result| ==> PresentIn(s.past, th.began, th.result[i].0, th.result[i].1))
  }

  /** One more heap in the past changes nothing for a call that stands still. */
  lemma PastGrows(c: Config, s: State, s': State, t: Tid)
    requires ValidConfig(c) && HeapInv(c, s.heap) && HeapInv(c, s'.heap) && Evolves(s.heap, s'.heap)
    requires CallPast(c, s, t) && s'.past == s.past + [s'.heap] && t in s'.threads && s'.threads[t] == s.threads[t]
    ensures CallPast(c, s', t)
  {
    hide HeapInv, Hindsight, SeenIn, AbsentIn, PresentIn, Evolves;
    var th := s.threads[t];
    if th.pc != Idle {
      HindsightKept(c, s.heap, s'.heap, s.past, th.began, th.call.key);
      SeenLater(s.past, th.began, s'.heap, th.pred);
      AbsentLater(s.past, th.began, s'.heap, th.call.key);
      forall i | 0 <= i < |th.result| ensures PresentIn(s'.past, th.began, th.result[i].0, th.result[i].1) {
        PresentLater(s.past, th.began, s'.heap, th.result[i].0, th.result[i].1);
      }
    }
  }

  lemma PastActor(c: Config, s: State, t: Tid, ch: Choice, s': State)
    requires Core(c, s) && HeapInv(c, s'.heap) && Evolves(s.heap, s'.heap) && Step(c, s, t, ch) == Some(s')
    requires t in s.threads && t in s'.threads && s'.past == s.past + [s'.heap]
    requires |s.past| > 0 && s.past[|s.past| - 1] == s.heap
    requires CallPast(c, s, t) && CallLogged(s, t) && KindOk(s.threads[t])
    ensures CallPast(c, s', t)
  {
    hide HeapInv, Hindsight, SeenIn, AbsentIn, PresentIn, Evolves, Core, KindOk, Step, CallPast;
    var th := s.threads[t];
    if th.pc == Idle {
      PastInvoke(c, s, t, ch, s');
    } else if th.pc == ReadLevel {
      PastStart(c, s, t, ch, s');
    } else if th.pc == Descend {
      PastDescend(c, s, t, ch, s');
    } else if th.pc == Decide {
      PastDecide(c, s, t, ch, s');
    } else if th.pc == WalkRead {
      PastRead(c, s, t, ch, s');
    } else {
      PastQuiet(c, s, t, ch, s');
    }
  }

  /** The facts about the past carried over to the longer past, for the acting thread. */
  lemma PastCarried(c: Config, s: State, s': State, t: Tid)
    requires Core(c, s) && HeapInv(c, s'.heap) && Evolves(s.heap, s'.heap)
    requires t in s.threads && CallPast(c, s, t) && s.threads[t].pc != Idle && s'.past == s.past + [s'.heap]
    ensures var th := s.threads[t];
            && Hindsight(c, s'.heap, s'.past, th.began, th.call.key)
            && (th.pc == Descend ==> SeenIn(s'.past, th.began, th.pred))
            && (th.pc == Decide && th.found.None? ==> AbsentIn(s'.past, th.began, th.call.key))
            && (forall i :: 0 <= i < |th.result| ==> PresentIn(s'.past, th.began, th.result[i].0, th.result[i].1))
  {
    hide HeapInv, Evolves;
    var s1 := s'.(threads := s.threads);
    PastGrows(c, s, s1, t);
  }

  lemma PastQuiet(c: Config, s: State, t: Tid, ch: Choice, s': State)
    requires Core(c, s) && HeapInv(c, s'.heap) && Evolves(s.heap, s'.heap) && Step(c, s, t, ch) == Some(s')
    requires t in s.threads && t in s'.threads && s'.past == s.past + [s'.heap]
    requires CallPast(c, s, t) && CallLogged(s, t) && KindOk(s.threads[t])
    requires s.threads[t].pc !in {Idle, ReadLevel, Descend, Decide, WalkRead}
    ensures CallPast(c, s', t)
  {
    hide HeapInv, Hindsight, SeenIn, AbsentIn, PresentIn, Evolves, Core, KindOk, Step;
    var th := s.threads[t];
    PastCarried(c, s, s', t);
    if th.pc in {WriteValue, SetLinked, Mark} {
      LinearizeStep(c, s, t, ch, s');
    } else if th.pc == Done {
      ReturnIdles(c, s, t, ch, s');
    } else {
      CallStep(c, s, t, ch, s');
    }
  }

  lemma ReturnIdles(c: Config, s: State, t: Tid, ch: Choice, s': State)
    requires Step(c, s, t, ch) == Some(s') && s.threads[t].pc == Done
    ensures s'.threads[t].pc == Idle
  {
  }

  lemma PastInvoke(c: Config, s: State, t: Tid, ch: Choice, s': State)
    requires Core(c, s) && HeapInv(c, s'.heap) && Step(c, s, t, ch) == Some(s')
    requires t in s.threads && s'.past == s.past + [s'.heap] && s.threads[t].pc == Idle
    requires |s.past| > 0 && s.past[|s.past| - 1] == s.heap
    ensures t in s'.threads && CallPast(c, s', t)
  {
    hide HeapInv, AgentsKnown, ThreadsOk;
    assert Invoke(c, s, t, s.threads[t], ch) == Some(s');
    hide Step, Hindsight;
    HindsightBegins(c, s.heap, s.past, ch.call.key);
    HindsightKept(c, s.heap, s'.heap, s.past, |s.past| - 1, ch.call.key);
  }

  lemma PastStart(c: Config, s: State, t: Tid, ch: Choice, s': State)
    requires Core(c, s) && HeapInv(c, s'.heap) && Evolves(s.heap, s'.heap) && Step(c, s, t, ch) == Some(s')
    requires t in s.threads && s'.past == s.past + [s'.heap]
    requires CallPast(c, s, t) && s.threads[t].pc == ReadLevel
    ensures t in s'.threads && CallPast(c, s', t)
  {
    hide HeapInv, AgentsKnown, ThreadsOk, Evolves, AbsentIn, PresentIn, Hindsight;
    PastCarried(c, s, s', t);
    HeadAt(c, s.heap);
    assert StartDescent(c, s, t, s.threads[t]) == Some(s');
    hide Step;
    assert s.threads[t].began < |s.past| by {
      assert Hindsight(c, s.heap, s.past, s.threads[t].began, s.threads[t].call.key);
      BeganBefore(c, s, t);
    }
    SeenNow(s'.past, s.threads[t].began, c.head);
  }

  lemma BeganBefore(c: Config, s: State, t: Tid)
    requires CallPast(c, s, t) && s.threads[t].pc != Idle
    ensures s.threads[t].began < |s.past|
  {
    hide SeenReached, SeenClosed, GapsAbsent;
  }

  lemma PastDescend(c: Config, s: State, t: Tid, ch: Choice, s': State)
    requires Core(c, s) && HeapInv(c, s'.heap) && Evolves(s.heap, s'.heap) && Step(c, s, t, ch) == Some(s')
    requires t in s.threads && s'.past == s.past + [s'.heap]
    requires CallPast(c, s, t) && s.threads[t].pc == Descend
    ensures t in s'.threads && CallPast(c, s', t)
  {
    hide HeapInv, AgentsKnown, Evolves, AbsentIn, PresentIn, Hindsight, FindOk, LocksMatch, TransitMine, AnswerOk,
        SeenIn;
    var th := s.threads[t];
    assert ThreadOk(c, s.heap, t, th);
    PastCarried(c, s, s', t);
    assert DescendOnce(c, s, t, th) == Some(s');
    hide Step;
    var th' := s'.threads[t];
    var l := th.level - 1;
    var cur := s.heap[th.pred].forward[l];
    if th'.pred != th.pred {
      Followed(c, s.heap, s'.past, th.began, th.call.key, th.pred, l);
    }
    if th'.pc == Decide && th'.found.None? {
      assert Gap(c, s.heap, th.pred, th.call.key);
      GapWitnessed(c, s.heap, s'.past, th.began, th.call.key, th.pred);
    }
  }

  lemma Followed(c: Config, h: Heap, past: seq<Heap>, began: nat, key: Bytes, n: Addr, l: nat)
    requires Hindsight(c, h, past, began, key) && SeenIn(past, began, n)
    requires HasLevel(h, n, l) && Reached(h, n, l) && h[n].forward[l] != NULL
    ensures SeenIn(past, began, h[n].forward[l])
  {
    hide SeenReached, GapsAbsent, SeenIn;
  }

  /** A gap below and above the key, seen from a node met during the call, existed during the call. */
  lemma GapWitnessed(c: Config, h: Heap, past: seq<Heap>, began: nat, key: Bytes, n: Addr)
    requires ValidConfig(c) && HeapInv(c, h) && Hindsight(c, h, past, began, key)
    requires SeenIn(past, began, n) && Gap(c, h, n, key)
    ensures AbsentIn(past, began, key)
  {
    hide HeapInv, SeenReached, SeenClosed, SeenIn;
    if InLevel(h, n, 0) {
      GapMeansAbsent(c, h, n, key);
      assert NoLiveKey(past[|past| - 1], key);
    }
  }

  lemma PastDecide(c: Config, s: State, t: Tid, ch: Choice, s': State)
    requires Core(c, s) && HeapInv(c, s'.heap) && Evolves(s.heap, s'.heap) && Step(c, s, t, ch) == Some(s')
    requires t in s.threads && s'.past == s.past + [s'.heap]
    requires CallPast(c, s, t) && s.threads[t].pc == Decide
    ensures t in s'.threads && CallPast(c, s', t)
  {
    hide HeapInv, AgentsKnown, Evolves, AbsentIn, PresentIn, Hindsight, ThreadsOk, SeenIn;
    PastCarried(c, s, s', t);
    assert DecideNext(c, s, t, s.threads[t], ch) == Some(s');
    hide Step;
  }

  lemma PastRead(c: Config, s: State, t: Tid, ch: Choice, s': State)
    requires Core(c, s) && HeapInv(c, s'.heap) && Evolves(s.heap, s'.heap) && Step(c, s, t, ch) == Some(s')
    requires t in s.threads && s'.past == s.past + [s'.heap]
    requires CallPast(c, s, t) && s.threads[t].pc == WalkRead
    ensures t in s'.threads && CallPast(c, s', t)
  {
    hide HeapInv, AgentsKnown, Evolves, AbsentIn, Hindsight, FindOk, LocksMatch, TransitMine, AnswerOk, SeenIn;
    var th := s.threads[t];
    assert ThreadOk(c, s.heap, t, th);
    PastCarried(c, s, s', t);
    BeganBefore(c, s, t);
    assert StepWalkRead(s, t, th) == Some(s');
    hide Step;
    var node := s.heap[th.cur];
    assert LivePair(s'.past[|s.past|], node.key, node.value);
  }

  /** Between fully_linked and fetch_add, between marked and fetch_sub, or neither. */
  predicate Adding(th: Thread) { th.pc == AddSize }
  predicate Removing(th: Thread) { th.pc in {UnlinkLoad, UnlinkStore, SubSize} }

  /** A step changes one thread and records the heap it leaves; four of them move the size account. */
  predicate OneActs(s: State, t: Tid, s': State) {
    && t in s.threads && t in s'.threads && s'.threads == s.threads[t := s'.threads[t]]
    && s'.past == s.past + [s'.heap]
    && var pc, th, th' := s.threads[t].pc, s.threads[t], s'.threads[t];
       && (Adding(th') <==> pc == SetLinked)
       && (Removing(th') <==> pc == Mark || (Removing(th) && pc != SubSize))
       && s'.size == (if pc == AddSize then (s.size + 1) % WORD else
                      if pc == SubSize then (s.size + WORD - 1) % WORD else s.size)
  }

  lemma FrameCalls(c: Config, s: State, t: Tid, ch: Choice, s': State)
    requires Step(c, s, t, ch) == Some(s') && KindOk(s.threads[t])
    requires s.threads[t].pc in {Idle, ReadLevel, Done}
    ensures OneActs(s, t, s')
  {
    hide KindOk;
    var th := s.threads[t];
    match th.pc {
      case Idle => assert Invoke(c, s, t, th, ch) == Some(s');
      case ReadLevel => assert StartDescent(c, s, t, th) == Some(s');
      case Done => assert Local(s, t, th.(pc := Idle)) == Some(s');
    }
  }

  lemma FrameSearch(c: Config, s: State, t: Tid, ch: Choice, s': State)
    requires Step(c, s, t, ch) == Some(s') && KindOk(s.threads[t])
    requires s.threads[t].pc in {Descend, Decide}
    ensures OneActs(s, t, s')
  {
    hide KindOk;
    var th := s.threads[t];
    match th.pc {
      case Descend => assert DescendOnce(c, s, t, th) == Some(s');
      case Decide => assert DecideNext(c, s, t, th, ch) == Some(s');
    }
  }

  lemma FrameLocks(c: Config, s: State, t: Tid, ch: Choice, s': State)
    requires Step(c, s, t, ch) == Some(s') && KindOk(s.threads[t])
    requires s.threads[t].pc in {Acquire, Release}
    ensures OneActs(s, t, s')
  {
    var th := s.threads[t];
    match th.pc {
      case Acquire => assert AcquireNext(s, t, th) == Some(s');
      case Release => assert ReleaseOne(s, t, th, ch) == Some(s');
    }
  }

  lemma FrameStores(c: Config, s: State, t: Tid, ch: Choice, s': State)
    requires Step(c, s, t, ch) == Some(s') && KindOk(s.threads[t])
    requires s.threads[t].pc in {Alloc, Link, UnlinkStore}
    ensures OneActs(s, t, s')
  {
    hide KindOk;
    var th := s.threads[t];
    match th.pc {
      case Alloc => assert StepAlloc(s, t, th, ch) == Some(s');
      case Link => assert StepLink(s, t, th) == Some(s');
      case UnlinkStore => assert StepUnlinkStore(s, t, th) == Some(s');
    }
  }

  lemma FrameUpdates(c: Config, s: State, t: Tid, ch: Choice, s': State)
    requires Step(c, s, t, ch) == Some(s') && KindOk(s.threads[t])
    requires s.threads[t].pc in {WriteValue, SetLinked, Mark}
    ensures OneActs(s, t, s')
  {
    hide KindOk;
    var th := s.threads[t];
    match th.pc {
      case WriteValue => assert StepWriteValue(s, t, th) == Some(s');
      case SetLinked => assert StepSetLinked(s, t, th) == Some(s');
      case Mark => assert StepMark(s, t, th) == Some(s');
    }
  }

  lemma FrameInserts(c: Config, s: State, t: Tid, ch: Choice, s': State)
    requires Step(c, s, t, ch) == Some(s') && KindOk(s.threads[t])
    requires s.threads[t].pc in {CheckMarked, CheckLinked, InsertPred, InsertSucc, InsertForward}
    ensures OneActs(s, t, s')
  {
    hide KindOk;
    var th := s.threads[t];
    match th.pc {
      case CheckMarked => assert StepCheckMarked(s, t, th) == Some(s');
      case CheckLinked => assert StepCheckLinked(s, t, th) == Some(s');
      case InsertPred => assert StepInsertPred(s, t, th) == Some(s');
      case InsertSucc => assert StepInsertSucc(s, t, th) == Some(s');
      case InsertForward => assert StepInsertForward(s, t, th) == Some(s');
    }
  }

  lemma FrameDeletes(c: Config, s: State, t: Tid, ch: Choice, s': State)
    requires Step(c, s, t, ch) == Some(s') && KindOk(s.threads[t])
    requires s.threads[t].pc in {VictimLinked, VictimMarked, DeletePred, DeleteForward, UnlinkLoad}
    ensures OneActs(s, t, s')
  {
    hide KindOk;
    var th := s.threads[t];
    match th.pc {
      case VictimLinked => assert StepVictimLinked(s, t, th) == Some(s');
      case VictimMarked => assert StepVictimMarked(c, s, t, th) == Some(s');
      case DeletePred => assert StepDeletePred(s, t, th) == Some(s');
      case DeleteForward => assert StepDeleteForward(s, t, th) == Some(s');
      case UnlinkLoad => assert StepUnlinkLoad(s, t, th) == Some(s');
    }
  }

  lemma FrameCounters(c: Config, s: State, t: Tid, ch: Choice, s': State)
    requires Step(c, s, t, ch) == Some(s') && KindOk(s.threads[t])
    requires s.threads[t].pc in {AddSize, RaiseLoad, RaiseCas, SubSize, Recompute, StoreLevel}
    ensures OneActs(s, t, s')
  {
    hide KindOk;
    var th := s.threads[t];
    match th.pc {
      case AddSize => assert StepAddSize(s, t, th) == Some(s');
      case RaiseLoad => assert StepRaiseLoad(s, t, th) == Some(s');
      case RaiseCas => assert StepRaiseCas(s, t, th, ch) == Some(s');
      case SubSize => assert StepSubSize(c, s, t, th) == Some(s');
      case Recompute => assert StepRecompute(c, s, t, th) == Some(s');
      case StoreLevel => assert StepStoreLevel(s, t, th) == Some(s');
    }
  }

  lemma FrameReads(c: Config, s: State, t: Tid, ch: Choice, s': State)
    requires Step(c, s, t, ch) == Some(s') && KindOk(s.threads[t])
    requires s.threads[t].pc in {WalkLoad, WalkMarked, WalkLinked, WalkMarkedAgain, WalkLinkedAgain, WalkRead}
    ensures OneActs(s, t, s')
  {
    hide KindOk;
    var th := s.threads[t];
    match th.pc {
      case WalkLoad => assert StepWalkLoad(c, s, t, th) == Some(s');
      case WalkMarked => assert StepWalkMarked(s, t, th) == Some(s');
      case WalkLinked => assert StepWalkLinked(s, t, th) == Some(s');
      case WalkMarkedAgain => assert StepWalkMarkedAgain(s, t, th) == Some(s');
      case WalkLinkedAgain => assert StepWalkLinkedAgain(s, t, th) == Some(s');
      case WalkRead => assert StepWalkRead(s, t, th) == Some(s');
    }
  }

  lemma StepFrame(c: Config, s: State, t: Tid, ch: Choice, s': State)
    requires Step(c, s, t, ch) == Some(s') && t in s.threads && KindOk(s.threads[t])
    ensures OneActs(s, t, s')
  {
    hide Step, OneActs, KindOk;
    match s.threads[t].pc {
      case Idle | ReadLevel | Done => FrameCalls(c, s, t, ch, s');
      case Descend | Decide => FrameSearch(c, s, t, ch, s');
      case Acquire | Release => FrameLocks(c, s, t, ch, s');
      case Alloc | Link | UnlinkStore => FrameStores(c, s, t, ch, s');
      case WriteValue | SetLinked | Mark => FrameUpdates(c, s, t, ch, s');
      case AddSize | RaiseLoad | RaiseCas | SubSize | Recompute | StoreLevel => FrameCounters(c, s, t, ch, s');
      case WalkLoad | WalkMarked | WalkLinked | WalkMarkedAgain | WalkLinkedAgain | WalkRead =>
          FrameReads(c, s, t, ch, s');
      case CheckMarked | CheckLinked | InsertPred | InsertSucc | InsertForward => FrameInserts(c, s, t, ch, s');
      case _ => FrameDeletes(c, s, t, ch, s');
    }
  }

  lemma PastStep(c: Config, s: State, t: Tid, ch: Choice, s': State)
    requires Core(c, s) && Core(c, s') && Evolves(s.heap, s'.heap) && Step(c, s, t, ch) == Some(s')
    requires forall u :: u in s.threads ==> CallLogged(s, u) && CallPast(c, s, u)
    requires |s.past| > 0 && s.past[|s.past| - 1] == s.heap
    ensures s'.past == s.past + [s'.heap] && forall u :: u in s'.threads ==> CallPast(c, s', u)
  {
    StepActs(c, s, t, ch);
    KindAt(c, s, t);
    StepFrame(c, s, t, ch, s');
    hide HeapInv, ThreadsOk, AgentsKnown, CallLogged, CallPast, Step, Evolves, KindOk;
    forall u | u in s'.threads ensures CallPast(c, s', u) {
      assert CallPast(c, s, u) && CallLogged(s, u);
      if u == t {
        PastActor(c, s, t, ch, s');
      } else {
        PastGrows(c, s, s', u);
      }
    }
  }

  /** A call keeps its kind from step to step. */
  lemma SameKind(c: Config, s: State, t: Tid, ch: Choice, s': State)
    requires Step(c, s, t, ch) == Some(s') && t in s.threads && t in s'.threads
    requires KindOk(s.threads[t]) && CallLogged(s, t) && s.threads[t].pc != Idle
    ensures s'.threads[t].pc == Idle || s'.threads[t].call == s.threads[t].call
  {
    hide Step, KindOk, LinOk, EntryOk;
    if s.threads[t].pc in {WriteValue, SetLinked, Mark} {
      LinearizeStep(c, s, t, ch, s');
    } else if s.threads[t].pc == Done {
      ReturnIdles(c, s, t, ch, s');
    } else {
      CallStep(c, s, t, ch, s');
    }
  }
}
