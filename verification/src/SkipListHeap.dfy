/**
 * What every reachable heap of the skip list satisfies, and how a step of one
 * thread may change the heap under the feet of another.
 *
 * `InLevel(h, n, l)` says that node `n` is currently linked at level `l`. The
 * chain of level `l` is characterised without following pointers: the forward
 * pointer of a node in the level is the least node of the level above it.
 */
module SkipListHeap {
  import opened Wrappers
  import opened Bytes
  import opened SkipListMachine

  /** Node `a` lies strictly below key `k`; the head lies below every key. */
  ghost predicate Before(c: Config, h: Heap, a: Addr, k: Bytes) {
    a in h && (a == c.head || c.less(h[a].key, k))
  }

  ghost predicate InLevel(h: Heap, n: Addr, l: nat) { n in h && l < h[n].linked }

  /** The node is or once was linked at level `l`; never undone. */
  ghost predicate Reached(h: Heap, n: Addr, l: nat) {
    n in h && l <= h[n].topLevel && (l < h[n].linked || h[n].marked)
  }

  /** Being linked by its inserter or unlinked by its deleter. */
  ghost predicate InTransit(c: Config, h: Heap, n: Addr) {
    n in h && n != c.head && (!h[n].fullyLinked || (h[n].marked && h[n].linked > 0))
  }

  ghost predicate Live(h: Heap, n: Addr) { n in h && h[n].fullyLinked && !h[n].marked }

  // ------------------------------------------------------- the heap invariant

  ghost predicate HeadOk(c: Config, h: Heap) {
    && c.head in h && NULL !in h
    && var n := h[c.head];
       n.topLevel == c.maxLevel - 1 && n.linked == c.maxLevel && !n.marked && !n.fullyLinked
  }

  ghost predicate NodeOk(c: Config, h: Heap, n: Addr)
    requires n in h
  {
    && |h[n].forward| == h[n].topLevel + 1 <= c.maxLevel
    && h[n].linked <= h[n].topLevel + 1
    && (h[n].marked ==> h[n].fullyLinked)
    && (h[n].fullyLinked && !h[n].marked ==> h[n].linked == h[n].topLevel + 1)
  }

  /** A non-null forward pointer leads to an allocated node with a larger key
      that has the level, and never from a listed node out of the level. */
  ghost predicate EdgeOk(c: Config, h: Heap, n: Addr, l: nat)
    requires HasLevel(h, n, l)
  {
    var f := h[n].forward[l];
    f != NULL ==>
      && f in h && f != c.head && l <= h[f].topLevel
      && Before(c, h, n, h[f].key)
      && (Reached(h, n, l) ==> Reached(h, f, l))
      && (l < h[n].linked || (h[n].marked && h[n].linked > 0) ==> InLevel(h, f, l))
  }

  ghost predicate EdgesOk(c: Config, h: Heap) {
    forall n, l: nat :: HasLevel(h, n, l) ==> EdgeOk(c, h, n, l)
  }

  /** Nothing of the level lies strictly between a node and its successor. */
  ghost predicate AdjacentOk(c: Config, h: Heap, n: Addr, m: Addr, l: nat) {
    n in h && m in h && m != c.head && Before(c, h, n, h[m].key) ==>
      && HasLevel(h, n, l)
      && var f := h[n].forward[l];
         f != NULL && f in h && !c.less(h[m].key, h[f].key)
  }

  ghost predicate Adjacent(c: Config, h: Heap) {
    forall n, m, l: nat :: InLevel(h, n, l) && InLevel(h, m, l) ==> AdjacentOk(c, h, n, m, l)
  }

  ghost predicate UniqueKeys(c: Config, h: Heap) {
    forall n, m :: InLevel(h, n, 0) && InLevel(h, m, 0) && n != m && n != c.head && m != c.head
                   ==> h[n].key != h[m].key
  }

  /** The agent of a node in transit holds the locks of the predecessors at
      every level, and those still point at the node or past it. */
  ghost predicate GuardOk(c: Config, h: Heap, n: Addr, l: nat)
    requires HasLevel(h, n, l)
  {
    && h[n].agent.Some? && |h[n].guards| == h[n].topLevel + 1 && l < |h[n].guards|
    && var g := h[n].guards[l];
       && HasLevel(h, g, l)
       && h[g].owner == h[n].agent && !h[g].marked && l < h[g].linked
       && Before(c, h, g, h[n].key)
       && h[g].forward[l] == if l < h[n].linked then n else h[n].forward[l]
  }

  ghost predicate Guarded(c: Config, h: Heap) {
    forall n, l: nat {:trigger HasLevel(h, n, l)} :: InTransit(c, h, n) && HasLevel(h, n, l) ==> GuardOk(c, h, n, l)
  }

  ghost predicate OneTransit(c: Config, h: Heap) {
    forall n, m :: InTransit(c, h, n) && InTransit(c, h, m) && h[n].agent == h[m].agent ==> n == m
  }

  ghost predicate HeapInv(c: Config, h: Heap) {
    && HeadOk(c, h)
    && (forall n :: n in h ==> NodeOk(c, h, n))
    && EdgesOk(c, h)
    && Adjacent(c, h)
    && UniqueKeys(c, h)
    && Guarded(c, h)
    && OneTransit(c, h)
  }

  // One instance of each quantified part, so that proofs need not unfold the rest

  lemma HeadAt(c: Config, h: Heap)
    requires HeapInv(c, h)
    ensures HeadOk(c, h)
  {
    hide EdgesOk, Adjacent, UniqueKeys, Guarded, OneTransit;
  }

  lemma NodeAt(c: Config, h: Heap, n: Addr)
    requires HeapInv(c, h) && n in h
    ensures NodeOk(c, h, n)
  {
    hide EdgesOk, Adjacent, UniqueKeys, Guarded, OneTransit;
  }

  lemma EdgeAt(c: Config, h: Heap, n: Addr, l: nat)
    requires HeapInv(c, h) && HasLevel(h, n, l)
    ensures EdgeOk(c, h, n, l)
  {
    hide Adjacent, UniqueKeys, Guarded, OneTransit;
  }

  lemma NextAt(c: Config, h: Heap, n: Addr, m: Addr, l: nat)
    requires HeapInv(c, h) && InLevel(h, n, l) && InLevel(h, m, l)
    ensures AdjacentOk(c, h, n, m, l)
  {
    hide EdgesOk, UniqueKeys, Guarded, OneTransit;
  }

  lemma KeysAt(c: Config, h: Heap, n: Addr, m: Addr)
    requires HeapInv(c, h) && InLevel(h, n, 0) && InLevel(h, m, 0)
    ensures n != m && n != c.head && m != c.head ==> h[n].key != h[m].key
  {
    hide EdgesOk, Adjacent, Guarded, OneTransit;
  }

  lemma GuardAt(c: Config, h: Heap, n: Addr, l: nat)
    requires HeapInv(c, h) && InTransit(c, h, n) && HasLevel(h, n, l)
    ensures GuardOk(c, h, n, l)
  {
    hide EdgesOk, Adjacent, UniqueKeys, OneTransit;
  }

  lemma TransitAt(c: Config, h: Heap, n: Addr, m: Addr)
    requires HeapInv(c, h) && InTransit(c, h, n) && InTransit(c, h, m) && h[n].agent == h[m].agent
    ensures n == m
  {
    hide EdgesOk, Adjacent, UniqueKeys, Guarded;
  }

  // ------------------------------------------------------------ what steps do

  /** Holds of every step: keys and heights are fixed, marks are permanent, a
      marked node's pointers are frozen, and only marked nodes lose levels. */
  ghost predicate NodeEvolves(a: Node, b: Node) {
    && b.key == a.key && b.topLevel == a.topLevel && |b.forward| == |a.forward|
    && (a.marked ==> b.marked && b.forward == a.forward)
    && (a.fullyLinked ==> b.fullyLinked)
    && (a.linked <= b.linked || a.marked)
  }

  ghost predicate Evolves(h: Heap, h': Heap) {
    && (forall n :: n in h ==> n in h' && NodeEvolves(h[n], h'[n]))
    && (forall n :: n in h' && n !in h ==> h'[n].linked == 0 && !h'[n].marked)
  }

  /** What the nodes thread `u` locked or has in transit undergo in a step of another thread. */
  ghost predicate NodeRely(c: Config, h: Heap, h': Heap, n: Addr, u: Tid)
    requires n in h && n in h'
  {
    && (h[n].owner == Some(u) <==> h'[n].owner == Some(u))
    && (h[n].owner == Some(u) ==> h'[n].forward == h[n].forward && h'[n].marked == h[n].marked)
    && (InTransit(c, h, n) && h[n].agent == Some(u) ==>
          h'[n] == h[n].(owner := h'[n].owner, forward := h'[n].forward)
          && |h'[n].forward| == |h[n].forward|
          && forall l :: h[n].linked <= l < |h[n].forward| ==> h'[n].forward[l] == h[n].forward[l])
    && (InTransit(c, h', n) && h'[n].agent == Some(u) ==> InTransit(c, h, n) && h[n].agent == Some(u))
  }

  ghost predicate Rely(c: Config, h: Heap, h': Heap, u: Tid) {
    && Evolves(h, h')
    && (forall n :: n in h ==> NodeRely(c, h, h', n, u))
    && (forall n :: n in h' && n !in h ==> h'[n].owner != Some(u) && h'[n].agent != Some(u))
  }

  ghost predicate RelyOthers(c: Config, h: Heap, h': Heap, t: Tid) {
    forall u :: u != t ==> Rely(c, h, h', u)
  }

  /** Thread `t` has no node in transit. */
  ghost predicate NoTransit(c: Config, h: Heap, t: Tid) {
    forall n :: InTransit(c, h, n) ==> h[n].agent != Some(t)
  }

  // -------------------------------------------------- the eight heap effects

  /** Effects that leave keys, pointers and levels alone and mark only nodes linked at every level. */
  ghost predicate SameShape(h: Heap, h': Heap) {
    h'.Keys == h.Keys &&
    forall n :: n in h ==>
      && h'[n].key == h[n].key && h'[n].topLevel == h[n].topLevel && h'[n].forward == h[n].forward
      && h'[n].linked == h[n].linked && (h[n].marked ==> h'[n].marked)
      && (h'[n].marked ==> h[n].marked || h[n].linked == h[n].topLevel + 1)
  }

  lemma ShapeKept(c: Config, h: Heap, h': Heap)
    requires HeapInv(c, h) && SameShape(h, h')
    ensures EdgesOk(c, h') && Adjacent(c, h') && UniqueKeys(c, h')
  {
    forall n, l: nat | HasLevel(h', n, l) ensures EdgeOk(c, h', n, l) {
      assert HasLevel(h, n, l);
    }
    forall n, m, l: nat | InLevel(h', n, l) && InLevel(h', m, l) ensures AdjacentOk(c, h', n, m, l) {
      assert InLevel(h, n, l) && InLevel(h, m, l);
      assert AdjacentOk(c, h, n, m, l);
    }
    forall n, m | InLevel(h', n, 0) && InLevel(h', m, 0) && n != m && n != c.head && m != c.head
      ensures h'[n].key != h'[m].key
    {
      assert InLevel(h, n, 0) && InLevel(h, m, 0);
    }
  }

  /** Guards survive when the locks and marks of agents' nodes are left alone. */
  lemma GuardsKept(c: Config, h: Heap, h': Heap)
    requires HeapInv(c, h) && SameShape(h, h')
    requires forall n :: n in h ==> h'[n].marked == h[n].marked
    requires forall n :: InTransit(c, h', n) ==>
               InTransit(c, h, n) && h'[n].agent == h[n].agent && h'[n].guards == h[n].guards
    requires forall n :: n in h && h[n].owner.Some? && h'[n].owner != h[n].owner ==> NoTransit(c, h, h[n].owner.value)
    ensures Guarded(c, h') && OneTransit(c, h')
  {
    forall n, l: nat | InTransit(c, h', n) && HasLevel(h', n, l) ensures GuardOk(c, h', n, l) {
      assert HasLevel(h, n, l) && GuardOk(c, h, n, l);
      assert HasLevel(h', h[n].guards[l], l);
    }
  }

  /** A step of thread `t` that rewrites one node which no other thread has locked. */
  lemma OneNodeRely(c: Config, h: Heap, h': Heap, t: Tid, n: Addr)
    requires n in h && n in h' && h' == h[n := h'[n]]
    requires h[n].owner == h'[n].owner || (h[n].owner in {None, Some(t)} && h'[n].owner in {None, Some(t)})
    requires h[n].owner == Some(t) || (h'[n].forward == h[n].forward && h'[n].marked == h[n].marked)
    requires NodeEvolves(h[n], h'[n])
    requires InTransit(c, h, n) && h[n].agent != Some(t) ==> h'[n] == h[n].(owner := h'[n].owner)
    requires InTransit(c, h', n) && h'[n].agent != Some(t) ==> InTransit(c, h, n) && h'[n].agent == h[n].agent
    ensures RelyOthers(c, h, h', t) && Evolves(h, h')
  {
    forall m | m in h ensures NodeEvolves(h[m], h'[m]) {}
    forall u | u != t ensures Rely(c, h, h', u) {
      forall m | m in h ensures NodeRely(c, h, h', m, u) {}
    }
  }

  lemma LockEffect(c: Config, h: Heap, t: Tid, n: Addr, h': Heap)
    requires HeapInv(c, h)
    requires n in h && h[n].owner == None && h' == h[n := h[n].(owner := Some(t))]
    ensures HeapInv(c, h') && RelyOthers(c, h, h', t) && Evolves(h, h')
  {
    hide EdgesOk, Adjacent, UniqueKeys, Guarded, OneTransit, RelyOthers, Evolves;
    ShapeKept(c, h, h');
    GuardsKept(c, h, h');
    OneNodeRely(c, h, h', t, n);
  }

  lemma UnlockEffect(c: Config, h: Heap, t: Tid, n: Addr, h': Heap)
    requires HeapInv(c, h)
    requires n in h && h[n].owner == Some(t) && h' == h[n := h[n].(owner := None)]
    requires NoTransit(c, h, t)
    ensures HeapInv(c, h') && RelyOthers(c, h, h', t) && Evolves(h, h')
  {
    hide EdgesOk, Adjacent, UniqueKeys, Guarded, OneTransit, RelyOthers, Evolves;
    ShapeKept(c, h, h');
    GuardsKept(c, h, h');
    OneNodeRely(c, h, h', t, n);
  }

  lemma WriteEffect(c: Config, h: Heap, t: Tid, n: Addr, v: Bytes, h': Heap)
    requires HeapInv(c, h)
    requires Live(h, n) && h[n].owner == Some(t) && h' == h[n := h[n].(value := v)]
    ensures HeapInv(c, h') && RelyOthers(c, h, h', t) && Evolves(h, h')
  {
    hide EdgesOk, Adjacent, UniqueKeys, Guarded, OneTransit, RelyOthers, Evolves;
    ShapeKept(c, h, h');
    GuardsKept(c, h, h');
    OneNodeRely(c, h, h', t, n);
  }

  lemma SetLinkedEffect(c: Config, h: Heap, t: Tid, n: Addr, h': Heap)
    requires HeapInv(c, h)
    requires n in h && n != c.head && h[n].agent == Some(t) && !h[n].fullyLinked && !h[n].marked
    requires h[n].linked == h[n].topLevel + 1
    requires h' == h[n := h[n].(fullyLinked := true)]
    ensures HeapInv(c, h') && RelyOthers(c, h, h', t) && Evolves(h, h')
  {
    hide EdgesOk, Adjacent, UniqueKeys, Guarded, OneTransit, RelyOthers, Evolves;
    ShapeKept(c, h, h');
    GuardsKept(c, h, h');
    OneNodeRely(c, h, h', t, n);
  }

  /** What a thread knows of the predecessors it has locked and validated. */
  ghost predicate ValidGuards(c: Config, h: Heap, t: Tid, guards: seq<Addr>, key: Bytes, forward: seq<Addr>) {
    |guards| == |forward| <= c.maxLevel &&
    forall l :: 0 <= l < |guards| ==>
      && HasLevel(h, guards[l], l) && h[guards[l]].owner == Some(t) && !h[guards[l]].marked
      && l < h[guards[l]].linked && Before(c, h, guards[l], key) && h[guards[l]].forward[l] == forward[l]
  }

  lemma MarkEffect(c: Config, h: Heap, t: Tid, n: Addr, guards: seq<Addr>, h': Heap)
    requires ValidConfig(c) && HeapInv(c, h) && NoTransit(c, h, t)
    requires Live(h, n) && h[n].owner == Some(t) && |guards| == h[n].topLevel + 1
    requires ValidGuards(c, h, t, guards, h[n].key, seq(|guards|, _ => n))
    requires h' == h[n := h[n].(marked := true, agent := Some(t), guards := guards)]
    ensures HeapInv(c, h') && RelyOthers(c, h, h', t) && Evolves(h, h')
  {
    hide EdgesOk, Adjacent, UniqueKeys, Guarded, OneTransit, RelyOthers, Evolves;
    ShapeKept(c, h, h');
    OneNodeRely(c, h, h', t, n);
    MarkGuards(c, h, t, n, guards, h');
  }

  lemma MarkGuards(c: Config, h: Heap, t: Tid, n: Addr, guards: seq<Addr>, h': Heap)
    requires ValidConfig(c) && HeapInv(c, h) && NoTransit(c, h, t)
    requires Live(h, n) && h[n].owner == Some(t) && |guards| == h[n].topLevel + 1
    requires ValidGuards(c, h, t, guards, h[n].key, seq(|guards|, _ => n))
    requires h' == h[n := h[n].(marked := true, agent := Some(t), guards := guards)]
    ensures Guarded(c, h') && OneTransit(c, h')
  {
    hide EdgesOk, Adjacent, UniqueKeys;
    forall m, l: nat | InTransit(c, h', m) && HasLevel(h', m, l) ensures GuardOk(c, h', m, l) {
      assert HasLevel(h, m, l);
      if m != n {
        GuardAt(c, h, m, l);
        assert HasLevel(h', h[m].guards[l], l);
      } else {
        assert HasLevel(h', guards[l], l);
      }
    }
  }

  ghost predicate CanAlloc(c: Config, h: Heap, t: Tid, a: Addr, node: Node) {
    && ValidConfig(c) && HeapInv(c, h) && NoTransit(c, h, t) && a != NULL && a !in h
    && node.linked == 0 && !node.marked && !node.fullyLinked && node.owner == None && node.agent == Some(t)
    && |node.forward| == node.topLevel + 1
    && ValidGuards(c, h, t, node.guards, node.key, node.forward)
    && forall l :: 0 <= l < |node.forward| && node.forward[l] in h ==> c.less(node.key, h[node.forward[l]].key)
  }

  lemma AllocEdges(c: Config, h: Heap, t: Tid, a: Addr, node: Node, h': Heap)
    requires CanAlloc(c, h, t, a, node) && h' == h[a := node]
    ensures EdgesOk(c, h')
  {
    hide HeapInv;
    forall n, l: nat | HasLevel(h', n, l) ensures EdgeOk(c, h', n, l) {
      if n != a {
        EdgeAt(c, h, n, l);
      } else {
        EdgeAt(c, h, node.guards[l], l);
      }
    }
  }

  lemma AllocGuards(c: Config, h: Heap, t: Tid, a: Addr, node: Node, h': Heap)
    requires CanAlloc(c, h, t, a, node) && h' == h[a := node]
    ensures Guarded(c, h') && OneTransit(c, h')
  {
    hide HeapInv;
    forall m, l: nat | InTransit(c, h', m) && HasLevel(h', m, l) ensures GuardOk(c, h', m, l) {
      if m != a {
        GuardAt(c, h, m, l);
        assert HasLevel(h', h[m].guards[l], l);
      } else {
        assert HasLevel(h', node.guards[l], l);
      }
    }
    forall n, m | InTransit(c, h', n) && InTransit(c, h', m) && h'[n].agent == h'[m].agent ensures n == m {
      if n != a && m != a { TransitAt(c, h, n, m); }
    }
  }

  lemma AllocRely(c: Config, h: Heap, t: Tid, a: Addr, node: Node, h': Heap)
    requires CanAlloc(c, h, t, a, node) && h' == h[a := node]
    ensures RelyOthers(c, h, h', t) && Evolves(h, h')
  {
    hide HeapInv;
    forall u | u != t ensures Rely(c, h, h', u) {
      forall m | m in h ensures NodeRely(c, h, h', m, u) {}
    }
  }

  lemma AllocEffect(c: Config, h: Heap, t: Tid, a: Addr, node: Node, h': Heap)
    requires CanAlloc(c, h, t, a, node) && h' == h[a := node]
    ensures HeapInv(c, h') && RelyOthers(c, h, h', t) && Evolves(h, h')
  {
    hide EdgesOk, Guarded, OneTransit, RelyOthers, Evolves;
    AllocEdges(c, h, t, a, node, h');
    AllocGuards(c, h, t, a, node, h');
    AllocRely(c, h, t, a, node, h');
    forall n, m, l: nat | InLevel(h', n, l) && InLevel(h', m, l) ensures AdjacentOk(c, h', n, m, l) {
      NextAt(c, h, n, m, l);
    }
    forall n, m | InLevel(h', n, 0) && InLevel(h', m, 0) && n != m && n != c.head && m != c.head
      ensures h'[n].key != h'[m].key
    {
      KeysAt(c, h, n, m);
    }
  }

  /** A node of a level is the successor of at most one node of the level. */
  lemma UniquePredecessor(c: Config, h: Heap, p: Addr, q: Addr, l: nat)
    requires ValidConfig(c) && HeapInv(c, h)
    requires InLevel(h, p, l) && InLevel(h, q, l) && HasLevel(h, p, l) && HasLevel(h, q, l)
    requires h[p].forward[l] == h[q].forward[l] != NULL
    ensures p == q
  {
    hide EdgesOk, Adjacent, UniqueKeys, Guarded, OneTransit;
    EdgeAt(c, h, p, l);
    EdgeAt(c, h, q, l);
    NextAt(c, h, p, q, l);
    NextAt(c, h, q, p, l);
    KeysAt(c, h, p, q);
  }

  // Linking and unlinking one level

  /** The heap in which guard `g` points at `target` and `n` has `linked` levels. */
  function Relinked(h: Heap, g: Addr, l: nat, target: Addr, n: Addr, linked: nat): Heap
    requires HasLevel(h, g, l) && n in h
  {
    SetLinkedLevels(SetForward(h, g, l, target), n, linked)
  }

  /** Relinking is a step of the thread that has locked `g` and has `n` in transit. */
  lemma RelinkRely(c: Config, h: Heap, t: Tid, g: Addr, l: nat, target: Addr, n: Addr, linked: nat, h': Heap)
    requires HasLevel(h, g, l) && n in h && g != n && h' == Relinked(h, g, l, target, n, linked)
    requires h[g].owner == Some(t) && !h[g].marked && l < h[g].linked
    requires InTransit(c, h, n) && h[n].agent == Some(t) && (h[n].linked <= linked || h[n].marked)
    ensures RelyOthers(c, h, h', t) && Evolves(h, h')
  {
    forall m | m in h ensures m in h' && NodeEvolves(h[m], h'[m]) {}
    forall u | u != t ensures Rely(c, h, h', u) {
      forall m | m in h ensures NodeRely(c, h, h', m, u) {}
    }
  }

  ghost predicate CanLink(c: Config, h: Heap, t: Tid, n: Addr, l: nat) {
    && ValidConfig(c) && HeapInv(c, h) && InTransit(c, h, n) && h[n].agent == Some(t)
    && !h[n].fullyLinked && h[n].linked == l <= h[n].topLevel
    && HasLevel(h, n, l) && GuardOk(c, h, n, l)
  }

  lemma LinkEdgeAt(c: Config, h: Heap, t: Tid, n: Addr, l: nat, h': Heap, m: Addr, j: nat)
    requires CanLink(c, h, t, n, l) && h' == Relinked(h, h[n].guards[l], l, n, n, l + 1)
    requires HasLevel(h', m, j)
    ensures EdgeOk(c, h', m, j)
  {
    hide HeapInv;
    NodeAt(c, h, m);
    HeadAt(c, h);
    EdgeAt(c, h, n, l);
    EdgeAt(c, h, h[n].guards[l], l);
    EdgeAt(c, h, m, j);
  }

  lemma LinkEdges(c: Config, h: Heap, t: Tid, n: Addr, l: nat, h': Heap)
    requires CanLink(c, h, t, n, l) && h' == Relinked(h, h[n].guards[l], l, n, n, l + 1)
    ensures EdgesOk(c, h')
  {
    hide HeapInv;
    forall m, j: nat | HasLevel(h', m, j) ensures EdgeOk(c, h', m, j) {
      LinkEdgeAt(c, h, t, n, l, h', m, j);
    }
  }

  lemma LinkUnique(c: Config, h: Heap, t: Tid, n: Addr, l: nat, h': Heap)
    requires CanLink(c, h, t, n, l) && h' == Relinked(h, h[n].guards[l], l, n, n, l + 1)
    ensures UniqueKeys(c, h')
  {
    hide HeapInv;
    EdgeAt(c, h, n, l);
    forall p: Addr, q: Addr | InLevel(h', p, 0) && InLevel(h', q, 0) && p != q && p != c.head && q != c.head
      ensures h'[p].key != h'[q].key
    {
      if InLevel(h, p, 0) && InLevel(h, q, 0) {
        KeysAt(c, h, p, q);
      } else {
        NextAt(c, h, h[n].guards[l], if p == n then q else p, 0);
      }
    }
  }

  lemma LinkAdjacent(c: Config, h: Heap, t: Tid, n: Addr, l: nat, h': Heap)
    requires CanLink(c, h, t, n, l) && h' == Relinked(h, h[n].guards[l], l, n, n, l + 1)
    ensures Adjacent(c, h')
  {
    hide HeapInv;
    forall p, m, j: nat | InLevel(h', p, j) && InLevel(h', m, j) ensures AdjacentOk(c, h', p, m, j) {
      LinkAdjacentAt(c, h, t, n, l, h', p, m, j);
    }
  }

  lemma LinkAdjacentAt(c: Config, h: Heap, t: Tid, n: Addr, l: nat, h': Heap, p: Addr, m: Addr, j: nat)
    requires CanLink(c, h, t, n, l) && h' == Relinked(h, h[n].guards[l], l, n, n, l + 1)
    requires InLevel(h', p, j) && InLevel(h', m, j)
    ensures AdjacentOk(c, h', p, m, j)
  {
    hide HeapInv;
    NodeAt(c, h, p);
    NodeAt(c, h, m);
    HeadAt(c, h);
    var g := h[n].guards[l];
    EdgeAt(c, h, n, l);
    EdgeAt(c, h, g, l);
    if InLevel(h, p, j) && InLevel(h, m, j) { NextAt(c, h, p, m, j); }
    if j == l && InLevel(h, m, l) { NextAt(c, h, g, m, l); }
    if j == l && m == n && p != n && p != g {
      NextAt(c, h, p, g, l);
      NextAt(c, h, g, p, l);
      KeysAt(c, h, p, g);
    }
  }

  lemma LinkGuards(c: Config, h: Heap, t: Tid, n: Addr, l: nat, h': Heap)
    requires CanLink(c, h, t, n, l) && h' == Relinked(h, h[n].guards[l], l, n, n, l + 1)
    ensures Guarded(c, h') && OneTransit(c, h')
  {
    hide HeapInv;
    forall m, j: nat | InTransit(c, h', m) && HasLevel(h', m, j) ensures GuardOk(c, h', m, j) {
      GuardAt(c, h, m, j);
      assert HasLevel(h', h[m].guards[j], j);
      if h[m].agent == h[n].agent { TransitAt(c, h, n, m); }
    }
    forall p, q | InTransit(c, h', p) && InTransit(c, h', q) && h'[p].agent == h'[q].agent ensures p == q {
      TransitAt(c, h, p, q);
    }
  }

  lemma LinkEffect(c: Config, h: Heap, t: Tid, n: Addr, l: nat, h': Heap)
    requires CanLink(c, h, t, n, l) && h' == Relinked(h, h[n].guards[l], l, n, n, l + 1)
    ensures HeapInv(c, h') && RelyOthers(c, h, h', t) && Evolves(h, h')
  {
    hide EdgesOk, Adjacent, UniqueKeys, Guarded, OneTransit, RelyOthers, Evolves;
    LinkEdges(c, h, t, n, l, h');
    LinkUnique(c, h, t, n, l, h');
    LinkAdjacent(c, h, t, n, l, h');
    LinkGuards(c, h, t, n, l, h');
    RelinkRely(c, h, t, h[n].guards[l], l, n, n, l + 1, h');
  }

  ghost predicate CanUnlink(c: Config, h: Heap, t: Tid, n: Addr, l: nat) {
    && ValidConfig(c) && HeapInv(c, h) && InTransit(c, h, n) && h[n].agent == Some(t)
    && h[n].marked && h[n].linked == l + 1
    && HasLevel(h, n, l) && GuardOk(c, h, n, l)
  }

  lemma UnlinkEdges(c: Config, h: Heap, t: Tid, n: Addr, l: nat, h': Heap)
    requires CanUnlink(c, h, t, n, l) && h' == Relinked(h, h[n].guards[l], l, h[n].forward[l], n, l)
    ensures EdgesOk(c, h') && UniqueKeys(c, h')
  {
    hide HeapInv;
    forall m, j: nat | HasLevel(h', m, j) ensures EdgeOk(c, h', m, j) {
      UnlinkEdgeAt(c, h, t, n, l, h', m, j);
    }
    forall p: Addr, q: Addr | InLevel(h', p, 0) && InLevel(h', q, 0) && p != q && p != c.head && q != c.head
      ensures h'[p].key != h'[q].key
    {
      KeysAt(c, h, p, q);
    }
  }

  /** Nobody but the guard still leads a reader of the level to the node: neither
      a listed node nor one that another thread is unlinking. */
  lemma UnlinkEdgeAt(c: Config, h: Heap, t: Tid, n: Addr, l: nat, h': Heap, m: Addr, j: nat)
    requires CanUnlink(c, h, t, n, l) && h' == Relinked(h, h[n].guards[l], l, h[n].forward[l], n, l)
    requires HasLevel(h', m, j)
    ensures EdgeOk(c, h', m, j)
  {
    hide HeapInv;
    NodeAt(c, h, m);
    HeadAt(c, h);
    var g := h[n].guards[l];
    EdgeAt(c, h, n, l);
    EdgeAt(c, h, g, l);
    EdgeAt(c, h, m, j);
    if j == l && m != g && h[m].forward[l] == n {
      if l < h[m].linked {
        UniquePredecessor(c, h, m, g, l);
      } else if h[m].marked && h[m].linked > 0 && m != c.head {
        GuardAt(c, h, m, l);
        UniquePredecessor(c, h, h[m].guards[l], g, l);
        TransitAt(c, h, m, n);
      }
    }
  }

  lemma UnlinkAdjacent(c: Config, h: Heap, t: Tid, n: Addr, l: nat, h': Heap)
    requires CanUnlink(c, h, t, n, l) && h' == Relinked(h, h[n].guards[l], l, h[n].forward[l], n, l)
    ensures Adjacent(c, h')
  {
    hide HeapInv;
    var g := h[n].guards[l];
    forall p, m, j: nat | InLevel(h', p, j) && InLevel(h', m, j) ensures AdjacentOk(c, h', p, m, j) {
      NextAt(c, h, p, m, j);
      if j == l && p == g {
        NextAt(c, h, n, m, l);
        KeysAt(c, h, n, m);
      }
    }
  }

  lemma UnlinkGuards(c: Config, h: Heap, t: Tid, n: Addr, l: nat, h': Heap)
    requires CanUnlink(c, h, t, n, l) && h' == Relinked(h, h[n].guards[l], l, h[n].forward[l], n, l)
    ensures Guarded(c, h') && OneTransit(c, h')
  {
    hide HeapInv;
    forall m, j: nat | InTransit(c, h', m) && HasLevel(h', m, j) ensures GuardOk(c, h', m, j) {
      GuardAt(c, h, m, j);
      assert HasLevel(h', h[m].guards[j], j);
      if h[m].agent == h[n].agent { TransitAt(c, h, n, m); }
    }
    forall p, q | InTransit(c, h', p) && InTransit(c, h', q) && h'[p].agent == h'[q].agent ensures p == q {
      TransitAt(c, h, p, q);
    }
  }

  lemma UnlinkEffect(c: Config, h: Heap, t: Tid, n: Addr, l: nat, h': Heap)
    requires CanUnlink(c, h, t, n, l) && h' == Relinked(h, h[n].guards[l], l, h[n].forward[l], n, l)
    ensures HeapInv(c, h') && RelyOthers(c, h, h', t) && Evolves(h, h')
  {
    hide EdgesOk, Adjacent, UniqueKeys, Guarded, OneTransit, RelyOthers, Evolves;
    UnlinkEdges(c, h, t, n, l, h');
    UnlinkAdjacent(c, h, t, n, l, h');
    UnlinkGuards(c, h, t, n, l, h');
    RelinkRely(c, h, t, h[n].guards[l], l, h[n].forward[l], n, l, h');
  }
}
