/**
 * The concurrent skip list as a transition system.
 *
 * Shared memory is a heap of nodes plus the two atomics `size_` and
 * `current_level_`. Every thread carries a program counter and the local
 * variables of the call it runs, and one step performs one lock acquisition,
 * one lock release, one load or one store. Atomics are sequentially consistent.
 * A node address doubles as the rank by which `LockNodes` sorts mutexes.
 *
 * The node fields `linked`, `agent` and `guards`, the thread fields `began`,
 * `logged` and `lin`, and the state fields `past` and `log` are history
 * variables: steps write them but no branch reads them.
 */
module SkipListMachine {
  import opened Wrappers
  import opened Bytes
  import opened Orders

  type Addr = nat
  type Tid = nat

  const NULL: Addr := 0
  const WORD: nat := 0x1_0000_0000_0000_0000

  datatype Node = Node(
    key: Bytes,
    value: Bytes,
    topLevel: nat,
    forward: seq<Addr>,
    marked: bool,
    fullyLinked: bool,
    owner: Option<Tid>,      // who holds the node's mutex
    linked: nat,             // history: how many levels, from the bottom, link the node
    agent: Option<Tid>,      // history: who links or unlinks the node
    guards: seq<Addr>)       // history: the predecessors the agent works with

  type Heap = map<Addr, Node>

  datatype Call =
    | Put(key: Bytes, value: Bytes)
    | Delete(key: Bytes)
    | Get(key: Bytes)
    | Scan(key: Bytes, end: Bytes)
    | Snapshot(key: Bytes)   // the key of a snapshot is never read

  datatype Pc =
    | Idle | ReadLevel | Descend | Decide | Acquire | Release
    | CheckMarked | CheckLinked | WriteValue
    | InsertPred | InsertSucc | InsertForward | Alloc | Link | SetLinked
    | AddSize | RaiseLoad | RaiseCas
    | VictimLinked | VictimMarked | DeletePred | DeleteForward
    | Mark | UnlinkLoad | UnlinkStore | SubSize | Recompute | StoreLevel
    | WalkLoad | WalkMarked | WalkLinked | WalkMarkedAgain | WalkLinkedAgain | WalkRead
    | Done

  datatype Thread = Thread(
    pc: Pc,
    cont: Pc,                // where to go when Acquire or Release finishes
    call: Call,
    level: nat,
    pred: Addr,
    cur: Addr,
    preds: seq<Addr>,
    succs: seq<Addr>,
    found: Option<nat>,
    targets: seq<Addr>,      // the sorted mutexes of LockNodes
    taken: nat,              // how many of them Acquire has taken
    locks: set<Addr>,        // the mutexes currently held
    node: Addr,              // the existing, new or victim node
    top: nat,
    next: Addr,
    observed: nat,
    result: seq<(Bytes, Bytes)>,
    ret: bool,
    began: nat,              // history: index into `past` at the invocation
    logged: nat,             // history: length of `log` at the invocation
    lin: Option<nat>)        // history: index of this call's entry in `log`

  /** One entry per change of the abstract map, in the order the changes happen. */
  datatype Event = Update(tid: Tid, call: Call, ret: bool) | Cleared

  datatype State = State(
    heap: Heap,
    size: nat,
    level: nat,
    threads: map<Tid, Thread>,
    past: seq<Heap>,
    log: seq<Event>)

  datatype Config = Config(less: Order, maxLevel: nat, head: Addr)

  /** What the environment picks in a step. */
  datatype Choice = Choice(call: Call, level: nat, addr: Addr, spurious: bool)

  ghost predicate ValidConfig(c: Config) {
    StrictTotalOrder(c.less) && 1 <= c.maxLevel && c.head != NULL
  }

  function EmptyHead(c: Config): Node {
    Node([], [], if c.maxLevel == 0 then 0 else c.maxLevel - 1, seq(c.maxLevel, _ => NULL),
         false, false, None, c.maxLevel, None, [])
  }

  function EmptyHeap(c: Config): Heap { map[c.head := EmptyHead(c)] }

  ghost predicate Init(c: Config, s: State) {
    && s.heap == EmptyHeap(c)
    && s.size == 0 && s.level == 1
    && s.past == [s.heap] && s.log == []
    && forall t :: t in s.threads ==> s.threads[t].pc == Idle && s.threads[t].locks == {}
  }

  // ------------------------------------------------------------------ steps

  predicate KeysEqual(c: Config, lhs: Bytes, rhs: Bytes) {
    !c.less(lhs, rhs) && !c.less(rhs, lhs)
  }

  /** The insertion used to sort and deduplicate the nodes to lock. */
  function Insert(a: Addr, sorted: seq<Addr>): seq<Addr> {
    if sorted == [] || a < sorted[0] then [a] + sorted
    else if a == sorted[0] then sorted
    else [sorted[0]] + Insert(a, sorted[1..])
  }

  function SortUnique(nodes: seq<Addr>): seq<Addr> {
    if nodes == [] then [] else Insert(nodes[0], SortUnique(nodes[1..]))
  }

  predicate HasLevel(h: Heap, n: Addr, l: nat) { n in h && l < |h[n].forward| }

  /** The state after thread `t` leaves heap `h` and local state `th`. */
  function After(s: State, t: Tid, h: Heap, th: Thread): State {
    s.(heap := h, threads := s.threads[t := th], past := s.past + [h])
  }

  /** Only local variables change. */
  function Local(s: State, t: Tid, th: Thread): Option<State> { Some(After(s, t, s.heap, th)) }

  function Logged(s: State, t: Tid, h: Heap, th: Thread, ret: bool): State {
    After(s, t, h, th.(ret := ret, lin := Some(|s.log|))).(log := s.log + [Update(t, th.call, ret)])
  }

  function Retry(th: Thread): Thread { th.(pc := Release, cont := ReadLevel) }
  function Finish(th: Thread): Thread { th.(pc := Release, cont := Done) }

  function Invoke(c: Config, s: State, t: Tid, th: Thread, ch: Choice): Option<State> {
    if |s.past| == 0 then None else
    var start := th.(call := ch.call, pred := c.head, result := [], ret := false,
                     found := None, began := |s.past| - 1, logged := |s.log|, lin := None);
    if ch.call.Snapshot? then Local(s, t, start.(pc := WalkLoad))
    else if ch.call.Scan? && c.less(ch.call.end, ch.call.key) then Local(s, t, start.(pc := Done))
    else Local(s, t, start.(pc := ReadLevel))
  }

  /** Entry of FindNode and FindNodeNoLock: read current_level_. Levels at or
      above it get the head and null, as the second loop of FindNode does. */
  function StartDescent(c: Config, s: State, t: Tid, th: Thread): Option<State> {
    if s.level == 0 then None
    else Local(s, t, th.(pc := Descend, level := s.level, pred := c.head, found := None,
                         preds := seq(c.maxLevel, _ => c.head), succs := seq(c.maxLevel, _ => NULL)))
  }

  /** One load of the search loop. */
  function DescendOnce(c: Config, s: State, t: Tid, th: Thread): Option<State> {
    if th.level == 0 || !HasLevel(s.heap, th.pred, th.level - 1) then None else
    var l := th.level - 1;
    var cur := s.heap[th.pred].forward[l];
    if cur != NULL && cur !in s.heap then None else
    if cur != NULL && c.less(s.heap[cur].key, th.call.key) then Local(s, t, th.(pred := cur))
    else if !(l < |th.preds| == |th.succs|) then None
    else
      var hit := th.found.None? && cur != NULL && KeysEqual(c, s.heap[cur].key, th.call.key);
      Local(s, t, th.(pc := if l == 0 then Decide else Descend, level := l,
                      found := if hit then Some(l) else th.found,
                      preds := th.preds[l := th.pred], succs := th.succs[l := cur]))
  }

  function DecideNext(c: Config, s: State, t: Tid, th: Thread, ch: Choice): Option<State> {
    match th.call
    case Put(_, _) =>
      if th.found.Some? then
        if th.found.value >= |th.succs| then None else
        var existing := th.succs[th.found.value];
        Local(s, t, th.(pc := Acquire, cont := CheckMarked, node := existing, targets := [existing], taken := 0))
      else if !(ch.level < c.maxLevel == |th.preds|) then None
      else Local(s, t, th.(pc := Acquire, cont := InsertPred, level := 0, top := ch.level,
                           targets := SortUnique(th.preds[..ch.level + 1]), taken := 0))
    case Delete(_) =>
      if th.found.None? then Local(s, t, th.(pc := Done, ret := false))
      else if th.found.value >= |th.succs| then None else
      var victim := th.succs[th.found.value];
      if victim !in s.heap || s.heap[victim].topLevel >= |th.preds| then None else
      var top := s.heap[victim].topLevel;
      Local(s, t, th.(pc := Acquire, cont := VictimLinked, level := 0, top := top, node := victim,
                      targets := SortUnique(th.preds[..top + 1] + [victim]), taken := 0))
    case _ => Local(s, t, th.(pc := WalkLoad))
  }

  /** Lock the next mutex; disabled while another thread holds it. */
  function AcquireNext(s: State, t: Tid, th: Thread): Option<State> {
    if th.taken >= |th.targets| || th.targets[th.taken] !in s.heap then None else
    var n := th.targets[th.taken];
    if s.heap[n].owner.Some? then None else
    Some(After(s, t, s.heap[n := s.heap[n].(owner := Some(t))],
               th.(locks := th.locks + {n}, taken := th.taken + 1,
                   pc := if th.taken + 1 == |th.targets| then th.cont else Acquire)))
  }

  /** Unlock any one of the mutexes held. */
  function ReleaseOne(s: State, t: Tid, th: Thread, ch: Choice): Option<State> {
    var n := ch.addr;
    if n !in th.locks || n !in s.heap then None else
    Some(After(s, t, s.heap[n := s.heap[n].(owner := None)],
               th.(locks := th.locks - {n}, pc := if th.locks == {n} then th.cont else Release)))
  }

  // Put on an existing node

  function StepCheckMarked(s: State, t: Tid, th: Thread): Option<State> {
    if th.node !in s.heap then None
    else Local(s, t, if s.heap[th.node].marked then Retry(th) else th.(pc := CheckLinked))
  }

  function StepCheckLinked(s: State, t: Tid, th: Thread): Option<State> {
    if th.node !in s.heap then None
    else Local(s, t, if s.heap[th.node].fullyLinked then th.(pc := WriteValue) else Retry(th))
  }

  function StepWriteValue(s: State, t: Tid, th: Thread): Option<State> {
    if th.node !in s.heap || !th.call.Put? then None else
    var h := s.heap[th.node := s.heap[th.node].(value := th.call.value)];
    Some(Logged(s, t, h, Finish(th), false))
  }

  // Put of a new node

  function StepInsertPred(s: State, t: Tid, th: Thread): Option<State> {
    if th.level >= |th.preds| then None else
    var p := th.preds[th.level];
    if p == NULL then Local(s, t, Retry(th))
    else if p !in s.heap then None
    else Local(s, t, if s.heap[p].marked then Retry(th) else th.(pc := InsertSucc))
  }

  function StepInsertSucc(s: State, t: Tid, th: Thread): Option<State> {
    if th.level >= |th.succs| then None else
    var n := th.succs[th.level];
    if n != NULL && n !in s.heap then None
    else Local(s, t, if n != NULL && s.heap[n].marked then Retry(th) else th.(pc := InsertForward))
  }

  function StepInsertForward(s: State, t: Tid, th: Thread): Option<State> {
    if !(th.level < |th.preds| == |th.succs|) || !HasLevel(s.heap, th.preds[th.level], th.level) then None
    else if s.heap[th.preds[th.level]].forward[th.level] != th.succs[th.level] then Local(s, t, Retry(th))
    else Local(s, t, if th.level == th.top then th.(pc := Alloc, level := 0)
                     else th.(pc := InsertPred, level := th.level + 1))
  }

  /** A fresh node, initialised and pushed on owned_nodes_ before anyone can see it. */
  function StepAlloc(s: State, t: Tid, th: Thread, ch: Choice): Option<State> {
    if ch.addr == NULL || ch.addr in s.heap || !th.call.Put? || !(th.top < |th.preds| == |th.succs|) then None else
    var node := Node(th.call.key, th.call.value, th.top, th.succs[..th.top + 1],
                     false, false, None, 0, Some(t), th.preds[..th.top + 1]);
    Some(After(s, t, s.heap[ch.addr := node], th.(pc := Link, level := 0, node := ch.addr)))
  }

  function SetForward(h: Heap, n: Addr, l: nat, target: Addr): Heap
    requires HasLevel(h, n, l)
  {
    h[n := h[n].(forward := h[n].forward[l := target])]
  }

  function SetLinkedLevels(h: Heap, n: Addr, linked: nat): Heap
    requires n in h
  {
    h[n := h[n].(linked := linked)]
  }

  function StepLink(s: State, t: Tid, th: Thread): Option<State> {
    if th.level >= |th.preds| || !HasLevel(s.heap, th.preds[th.level], th.level) || th.node !in s.heap then None else
    var h := SetLinkedLevels(SetForward(s.heap, th.preds[th.level], th.level, th.node), th.node, th.level + 1);
    Some(After(s, t, h, th.(pc := if th.level == th.top then SetLinked else Link, level := th.level + 1)))
  }

  function StepSetLinked(s: State, t: Tid, th: Thread): Option<State> {
    if th.node !in s.heap then None else
    var h := s.heap[th.node := s.heap[th.node].(fullyLinked := true)];
    Some(Logged(s, t, h, th.(pc := AddSize), true))
  }

  function StepAddSize(s: State, t: Tid, th: Thread): Option<State> {
    Some(After(s, t, s.heap, th.(pc := RaiseLoad)).(size := (s.size + 1) % WORD))
  }

  function StepRaiseLoad(s: State, t: Tid, th: Thread): Option<State> {
    Local(s, t, th.(pc := RaiseCas, observed := s.level))
  }

  /** compare_exchange_weak may fail spuriously. */
  function StepRaiseCas(s: State, t: Tid, th: Thread, ch: Choice): Option<State> {
    if th.top + 1 <= th.observed then Local(s, t, Finish(th))
    else if s.level == th.observed && !ch.spurious then
      Some(After(s, t, s.heap, Finish(th)).(level := th.top + 1))
    else Local(s, t, th.(observed := s.level))
  }

  // Delete

  function StepVictimLinked(s: State, t: Tid, th: Thread): Option<State> {
    if th.node !in s.heap then None
    else Local(s, t, if s.heap[th.node].fullyLinked then th.(pc := VictimMarked) else Retry(th))
  }

  function StepVictimMarked(c: Config, s: State, t: Tid, th: Thread): Option<State> {
    if th.node !in s.heap then None
    else if s.heap[th.node].marked || !KeysEqual(c, s.heap[th.node].key, th.call.key) then Local(s, t, Retry(th))
    else Local(s, t, th.(pc := DeletePred))
  }

  function StepDeletePred(s: State, t: Tid, th: Thread): Option<State> {
    if th.level >= |th.preds| then None else
    var p := th.preds[th.level];
    if p == NULL then Local(s, t, Retry(th))
    else if p !in s.heap then None
    else Local(s, t, if s.heap[p].marked then Retry(th) else th.(pc := DeleteForward))
  }

  function StepDeleteForward(s: State, t: Tid, th: Thread): Option<State> {
    if th.level >= |th.preds| || !HasLevel(s.heap, th.preds[th.level], th.level) then None
    else if s.heap[th.preds[th.level]].forward[th.level] != th.node then Local(s, t, Retry(th))
    else Local(s, t, if th.level == th.top then th.(pc := Mark) else th.(pc := DeletePred, level := th.level + 1))
  }

  function StepMark(s: State, t: Tid, th: Thread): Option<State> {
    if th.node !in s.heap || th.top >= |th.preds| then None else
    var h := s.heap[th.node := s.heap[th.node].(marked := true, agent := Some(t), guards := th.preds[..th.top + 1])];
    Some(Logged(s, t, h, th.(pc := UnlinkLoad, level := th.top + 1), true))
  }

  function StepUnlinkLoad(s: State, t: Tid, th: Thread): Option<State> {
    if th.level == 0 || !HasLevel(s.heap, th.node, th.level - 1) then None
    else Local(s, t, th.(pc := UnlinkStore, next := s.heap[th.node].forward[th.level - 1]))
  }

  function StepUnlinkStore(s: State, t: Tid, th: Thread): Option<State> {
    if th.level == 0 || th.level > |th.preds| || !HasLevel(s.heap, th.preds[th.level - 1], th.level - 1)
       || th.node !in s.heap then None else
    var l := th.level - 1;
    var h := SetLinkedLevels(SetForward(s.heap, th.preds[l], l, th.next), th.node, l);
    Some(After(s, t, h, th.(pc := if l == 0 then SubSize else UnlinkLoad, level := l)))
  }

  function StepSubSize(c: Config, s: State, t: Tid, th: Thread): Option<State> {
    Some(After(s, t, s.heap, th.(pc := Recompute, level := c.maxLevel)).(size := (s.size + WORD - 1) % WORD))
  }

  function StepRecompute(c: Config, s: State, t: Tid, th: Thread): Option<State> {
    if th.level <= 1 then Local(s, t, th.(pc := StoreLevel))
    else if !HasLevel(s.heap, c.head, th.level - 1) then None
    else if s.heap[c.head].forward[th.level - 1] == NULL then Local(s, t, th.(level := th.level - 1))
    else Local(s, t, th.(pc := StoreLevel))
  }

  function StepStoreLevel(s: State, t: Tid, th: Thread): Option<State> {
    Some(After(s, t, s.heap, Finish(th)).(level := th.level))
  }

  // Get, Scan and Snapshot along the bottom level

  /** Where a reader goes when it has dealt with the current node. */
  function Onward(th: Thread): Thread {
    if th.call.Get? then th.(pc := Done) else th.(pc := WalkLoad, pred := th.cur)
  }

  function ReleaseOnward(th: Thread): Thread {
    Onward(th).(pc := Release, cont := Onward(th).pc)
  }

  function StepWalkLoad(c: Config, s: State, t: Tid, th: Thread): Option<State> {
    if !HasLevel(s.heap, th.pred, 0) then None else
    var cur := s.heap[th.pred].forward[0];
    if cur != NULL && cur !in s.heap then None else
    var stop := cur == NULL
                || (th.call.Get? && !KeysEqual(c, s.heap[cur].key, th.call.key))
                || (th.call.Scan? && c.less(th.call.end, s.heap[cur].key));
    Local(s, t, th.(pc := if stop then Done else WalkMarked, cur := cur))
  }

  function StepWalkMarked(s: State, t: Tid, th: Thread): Option<State> {
    if th.cur !in s.heap then None
    else Local(s, t, if s.heap[th.cur].marked then Onward(th) else th.(pc := WalkLinked))
  }

  function StepWalkLinked(s: State, t: Tid, th: Thread): Option<State> {
    if th.cur !in s.heap then None
    else Local(s, t, if s.heap[th.cur].fullyLinked
                     then th.(pc := Acquire, cont := WalkMarkedAgain, targets := [th.cur], taken := 0)
                     else Onward(th))
  }

  function StepWalkMarkedAgain(s: State, t: Tid, th: Thread): Option<State> {
    if th.cur !in s.heap then None
    else Local(s, t, if s.heap[th.cur].marked then ReleaseOnward(th) else th.(pc := WalkLinkedAgain))
  }

  function StepWalkLinkedAgain(s: State, t: Tid, th: Thread): Option<State> {
    if th.cur !in s.heap then None
    else Local(s, t, if s.heap[th.cur].fullyLinked then th.(pc := WalkRead) else ReleaseOnward(th))
  }

  function StepWalkRead(s: State, t: Tid, th: Thread): Option<State> {
    if th.cur !in s.heap then None
    else Local(s, t, ReleaseOnward(th).(ret := true,
                                        result := th.result + [(s.heap[th.cur].key, s.heap[th.cur].value)]))
  }

  /** The step of thread `t`, if it is enabled under choice `ch`. */
  function Step(c: Config, s: State, t: Tid, ch: Choice): Option<State> {
    if t !in s.threads then None else
    var th := s.threads[t];
    match th.pc
    case Idle => Invoke(c, s, t, th, ch)
    case ReadLevel => StartDescent(c, s, t, th)
    case Descend => DescendOnce(c, s, t, th)
    case Decide => DecideNext(c, s, t, th, ch)
    case Acquire => AcquireNext(s, t, th)
    case Release => ReleaseOne(s, t, th, ch)
    case CheckMarked => StepCheckMarked(s, t, th)
    case CheckLinked => StepCheckLinked(s, t, th)
    case WriteValue => StepWriteValue(s, t, th)
    case InsertPred => StepInsertPred(s, t, th)
    case InsertSucc => StepInsertSucc(s, t, th)
    case InsertForward => StepInsertForward(s, t, th)
    case Alloc => StepAlloc(s, t, th, ch)
    case Link => StepLink(s, t, th)
    case SetLinked => StepSetLinked(s, t, th)
    case AddSize => StepAddSize(s, t, th)
    case RaiseLoad => StepRaiseLoad(s, t, th)
    case RaiseCas => StepRaiseCas(s, t, th, ch)
    case VictimLinked => StepVictimLinked(s, t, th)
    case VictimMarked => StepVictimMarked(c, s, t, th)
    case DeletePred => StepDeletePred(s, t, th)
    case DeleteForward => StepDeleteForward(s, t, th)
    case Mark => StepMark(s, t, th)
    case UnlinkLoad => StepUnlinkLoad(s, t, th)
    case UnlinkStore => StepUnlinkStore(s, t, th)
    case SubSize => StepSubSize(c, s, t, th)
    case Recompute => StepRecompute(c, s, t, th)
    case StoreLevel => StepStoreLevel(s, t, th)
    case WalkLoad => StepWalkLoad(c, s, t, th)
    case WalkMarked => StepWalkMarked(s, t, th)
    case WalkLinked => StepWalkLinked(s, t, th)
    case WalkMarkedAgain => StepWalkMarkedAgain(s, t, th)
    case WalkLinkedAgain => StepWalkLinkedAgain(s, t, th)
    case WalkRead => StepWalkRead(s, t, th)
    case Done => Local(s, t, th.(pc := Idle))
  }

  /** Clear holds the lifecycle mutex exclusively, so no call is in flight. */
  ghost predicate AllIdle(s: State) {
    forall t :: t in s.threads ==> s.threads[t].pc == Idle
  }

  function Clear(c: Config, s: State): State {
    s.(heap := EmptyHeap(c), size := 0, level := 1, past := s.past + [EmptyHeap(c)], log := s.log + [Cleared])
  }

  ghost predicate Next(c: Config, s: State, s': State) {
    || (exists t, ch :: Step(c, s, t, ch) == Some(s'))
    || (AllIdle(s) && s' == Clear(c, s))
  }

  /** A finite run from an initial state. */
  ghost predicate IsRun(c: Config, run: seq<State>) {
    && |run| >= 1 && Init(c, run[0])
    && forall i :: 0 <= i < |run| - 1 ==> Next(c, run[i], run[i + 1])
  }
}
