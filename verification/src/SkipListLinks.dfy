/**
 * The links of the single-threaded skip list, as a value: which nodes are live
 * and where their forward pointers lead. The level chains are characterised as
 * in the concurrent model: a pointer leads to the least live node above.
 */
module SkipListLinks {
  import opened Bytes
  import opened Orders

  class Node {
    const key: Bytes
    const topLevel: nat
    var value: Bytes
    var forward: seq<Node?>
    var marked: bool
    var fullyLinked: bool

    constructor (topLevel: nat, key: Bytes, value: Bytes)
      ensures this.topLevel == topLevel && this.key == key && this.value == value
      ensures |forward| == topLevel + 1 && forall l :: 0 <= l <= topLevel ==> forward[l] == null
      ensures !marked && !fullyLinked
    {
      this.key := key;
      this.value := value;
      this.topLevel := topLevel;
      this.forward := seq(topLevel + 1, _ => null);
      this.marked := false;
      this.fullyLinked := false;
    }
  }

  type Forwards = map<Node, seq<Node?>>

  datatype Links = Links(less: Order, maxLevel: nat, head: Node, live: set<Node>, forward: Forwards)

  ghost predicate Below(k: Links, n: Node, key: Bytes) { n == k.head || k.less(n.key, key) }

  ghost predicate At(k: Links, older n: Node, l: nat) { n in k.forward && l < |k.forward[n]| }

  ghost predicate Listed(k: Links, older n: Node, l: nat) { n in k.live && l <= n.topLevel }

  ghost predicate NodesOk(k: Links) {
    && StrictTotalOrder(k.less) && k.maxLevel >= 1
    && k.head !in k.live && k.forward.Keys == k.live + {k.head}
    && |k.forward[k.head]| == k.maxLevel
    && forall n :: n in k.live ==> |k.forward[n]| == n.topLevel + 1 <= k.maxLevel
  }

  ghost predicate EdgeOk(k: Links, n: Node, l: nat)
    requires At(k, n, l)
  {
    var f := k.forward[n][l];
    f != null ==> Listed(k, f, l) && Below(k, n, f.key)
  }

  ghost predicate EdgesOk(k: Links) { forall n, l: nat :: At(k, n, l) ==> EdgeOk(k, n, l) }

  ghost predicate NextOk(k: Links, n: Node, m: Node, l: nat)
    requires At(k, n, l)
  {
    Below(k, n, m.key) ==> k.forward[n][l] != null && !k.less(m.key, k.forward[n][l].key)
  }

  ghost predicate NextsOk(k: Links) { forall n, m, l: nat :: At(k, n, l) && Listed(k, m, l) ==> NextOk(k, n, m, l) }

  ghost predicate UniqueKeys(k: Links) { DistinctKeys(k.live) }

  ghost predicate LinksOk(k: Links) { NodesOk(k) && EdgesOk(k) && NextsOk(k) && UniqueKeys(k) }

  /** What the search returns at one level. */
  ghost predicate Brackets(k: Links, key: Bytes, p: Node, s: Node?, l: nat) {
    && At(k, p, l) && Below(k, p, key) && k.forward[p][l] == s
    && (s != null ==> Listed(k, s, l) && !k.less(s.key, key))
  }

  // ------------------------------------------------------------ instantiation

  lemma EdgeAt(k: Links, n: Node, l: nat)
    requires LinksOk(k) && At(k, n, l)
    ensures EdgeOk(k, n, l)
  {
    hide NodesOk, NextsOk, UniqueKeys;
  }

  lemma NextAt(k: Links, n: Node, m: Node, l: nat)
    requires LinksOk(k) && At(k, n, l) && Listed(k, m, l)
    ensures NextOk(k, n, m, l)
  {
    hide NodesOk, EdgesOk, UniqueKeys;
  }

  lemma NodesAt(k: Links)
    requires LinksOk(k)
    ensures NodesOk(k) && UniqueKeys(k)
  {
    hide NodesOk, EdgesOk, NextsOk, UniqueKeys;
  }

  // ---------------------------------------------------------- what a search finds

  /** A live node with the key is the successor at each of its levels. */
  lemma FoundEverywhere(k: Links, key: Bytes, p: Node, s: Node?, l: nat, m: Node)
    requires LinksOk(k) && Brackets(k, key, p, s, l) && Listed(k, m, l) && m.key == key
    ensures s == m
  {
    hide LinksOk;
    NodesAt(k);
    NextAt(k, p, m, l);
  }

  // ------------------------------------------------------------------ insertion

  ghost function ForwardsOf(nodes: set<Node>): Forwards
    reads nodes`forward
  {
    map n | n in nodes :: n.forward
  }

  ghost predicate DistinctKeys(nodes: set<Node>) {
    forall n, m :: n in nodes && m in nodes && n.key == m.key ==> n == m
  }

  ghost function MapOf(nodes: set<Node>): map<Bytes, Bytes>
    requires DistinctKeys(nodes)
    reads nodes`value
  {
    map n | n in nodes :: n.key := n.value
  }

  lemma MapAdd(nodes: set<Node>, node: Node)
    requires DistinctKeys(nodes) && DistinctKeys(nodes + {node}) && node !in nodes
    ensures MapOf(nodes + {node}) == MapOf(nodes)[node.key := node.value]
  {
    assert forall n :: n in nodes ==> n in nodes + {node};
  }

  lemma MapDrop(nodes: set<Node>, node: Node)
    requires DistinctKeys(nodes) && DistinctKeys(nodes - {node}) && node in nodes
    ensures MapOf(nodes - {node}) == MapOf(nodes) - {node.key}
  {
    assert forall n :: n in nodes - {node} ==> n in nodes && n.key != node.key;
  }

  /** The predecessors recorded below level `top` point at `node`; nothing else changed. */
  ghost predicate Spliced(f: Forwards, f': Forwards, node: Node, preds: seq<Node?>, top: nat) {
    && f'.Keys == f.Keys && top <= |preds|
    && (forall n :: n in f && n in f' ==> |f'[n]| == |f[n]|)
    && (forall n, l: nat {:trigger f'[n][l]} :: n in f && n in f' && l < |f[n]| && l < |f'[n]| ==>
          f'[n][l] == if l < top && preds[l] == n then node else f[n][l])
  }

  lemma SpliceNone(f: Forwards, node: Node, preds: seq<Node?>)
    ensures Spliced(f, f, node, preds, 0)
  {
  }

  lemma SpliceOne(f: Forwards, f1: Forwards, f2: Forwards, node: Node, preds: seq<Node?>, top: nat, p: Node)
    requires Spliced(f, f1, node, preds, top) && top < |preds| && preds[top] == p && p in f1 && top < |f1[p]|
    requires f2 == f1[p := f1[p][top := node]]
    ensures Spliced(f, f2, node, preds, top + 1)
  {
  }

  lemma InsertedMade(k: Links, k': Links, f': Forwards, node: Node, preds: seq<Node?>, succs: seq<Node?>)
    requires Spliced(k.forward, f', node, preds, node.topLevel + 1) && k.forward.Keys == k.live + {k.head}
    requires node !in k.live && node != k.head && node.topLevel < k.maxLevel == |preds| == |succs|
    requires forall l: nat :: l <= node.topLevel ==> preds[l] != null
    requires k' == k.(live := k.live + {node}, forward := f'[node := succs[..node.topLevel + 1]])
    ensures Inserted(k, k', node, preds, succs)
  {
  }

  /** `node` linked behind the predecessors at levels 0..topLevel. */
  ghost predicate Inserted(k: Links, k': Links, node: Node, preds: seq<Node?>, succs: seq<Node?>) {
    && node !in k.live && node != k.head && node.topLevel < k.maxLevel
    && |preds| == |succs| == k.maxLevel
    && (forall l: nat :: l <= node.topLevel ==> preds[l] != null)
    && k' == k.(live := k.live + {node}, forward := k'.forward)
    && k'.forward.Keys == k'.live + {k'.head}
    && k'.forward[node] == succs[..node.topLevel + 1]
    && (forall n :: n in k.forward && n in k'.forward ==> |k'.forward[n]| == |k.forward[n]|)
    && (forall n, l: nat {:trigger k'.forward[n][l]} ::
          n in k.forward && n in k'.forward && l < |k.forward[n]| && l < |k'.forward[n]| ==>
          k'.forward[n][l] == if l <= node.topLevel && preds[l] == n then node else k.forward[n][l])
  }

  ghost predicate CanInsert(k: Links, k': Links, node: Node, preds: seq<Node?>, succs: seq<Node?>) {
    && LinksOk(k) && Inserted(k, k', node, preds, succs)
    && (forall l: nat :: l <= node.topLevel ==> Brackets(k, node.key, preds[l], succs[l], l))
    && (forall n :: n in k.live ==> n.key != node.key)
  }

  lemma InsertEdgeAt(k: Links, k': Links, node: Node, preds: seq<Node?>, succs: seq<Node?>, n: Node, l: nat)
    requires CanInsert(k, k', node, preds, succs) && At(k', n, l)
    ensures EdgeOk(k', n, l)
  {
    hide LinksOk;
    NodesAt(k);
    if l <= node.topLevel { assert Brackets(k, node.key, preds[l], succs[l], l); }
    if n != node {
      assert At(k, n, l);
      EdgeAt(k, n, l);
    }
  }

  lemma InsertNextAt(k: Links, k': Links, node: Node, preds: seq<Node?>, succs: seq<Node?>, n: Node, m: Node, l: nat)
    requires CanInsert(k, k', node, preds, succs) && At(k', n, l) && Listed(k', m, l)
    ensures NextOk(k', n, m, l)
  {
    hide LinksOk;
    NodesAt(k);
    if l <= node.topLevel {
      var p := preds[l];
      assert Brackets(k, node.key, p, succs[l], l);
      if m != node {
        NextAt(k, p, m, l);
      } else if n != node && n != p {
        assert At(k, n, l);
        if p != k.head { NextAt(k, n, p, l); }
        if n != k.head { NextAt(k, p, n, l); }
      }
    }
    if n != node && m != node {
      assert At(k, n, l);
      NextAt(k, n, m, l);
    }
  }

  lemma InsertKeeps(k: Links, k': Links, node: Node, preds: seq<Node?>, succs: seq<Node?>)
    requires CanInsert(k, k', node, preds, succs)
    ensures LinksOk(k')
  {
    hide LinksOk;
    NodesAt(k);
    assert NodesOk(k');
    assert UniqueKeys(k');
    hide NodesOk, UniqueKeys, CanInsert;
    assert EdgesOk(k') by {
      forall n, l: nat | At(k', n, l) ensures EdgeOk(k', n, l) { InsertEdgeAt(k, k', node, preds, succs, n, l); }
    }
    assert NextsOk(k') by {
      forall n, m, l: nat | At(k', n, l) && Listed(k', m, l) ensures NextOk(k', n, m, l) {
        InsertNextAt(k, k', node, preds, succs, n, m, l);
      }
    }
    assert LinksOk(k') by { LinksMade(k'); }
  }

  lemma LinksMade(k: Links)
    requires NodesOk(k) && EdgesOk(k) && NextsOk(k) && UniqueKeys(k)
    ensures LinksOk(k)
  {
    hide NodesOk, EdgesOk, NextsOk, UniqueKeys;
  }

  // ------------------------------------------------------------------- deletion

  /** `victim` bypassed at all of its levels. */
  ghost predicate Removed(k: Links, k': Links, victim: Node, preds: seq<Node?>) {
    && victim in k.live && victim in k.forward && |preds| == k.maxLevel && victim.topLevel < k.maxLevel
    && |k.forward[victim]| == victim.topLevel + 1
    && k' == k.(live := k.live - {victim}, forward := k'.forward)
    && k'.forward.Keys == k'.live + {k'.head}
    && (forall n :: n in k.forward && n in k'.forward ==> |k'.forward[n]| == |k.forward[n]|)
    && (forall n, l: nat {:trigger k'.forward[n][l]} ::
          n in k.forward && n in k'.forward && l < |k.forward[n]| && l < |k'.forward[n]| ==>
          k'.forward[n][l] == if l <= victim.topLevel && preds[l] == n then k.forward[victim][l] else k.forward[n][l])
  }

  ghost predicate CanRemove(k: Links, k': Links, victim: Node, preds: seq<Node?>) {
    && LinksOk(k) && Removed(k, k', victim, preds)
    && forall l: nat :: l <= victim.topLevel ==> preds[l] != null && Brackets(k, victim.key, preds[l], victim, l)
  }

  /** From level `from` up, the predecessors of a node with pointers `past` bypass it. */
  ghost predicate Bypassed(f: Forwards, f': Forwards, past: seq<Node?>, preds: seq<Node?>, from: nat) {
    && f'.Keys == f.Keys && |past| <= |preds|
    && (forall n :: n in f && n in f' ==> |f'[n]| == |f[n]|)
    && (forall n, l: nat {:trigger f'[n][l]} :: n in f && n in f' && l < |f[n]| && l < |f'[n]| ==>
          f'[n][l] == if from <= l < |past| && preds[l] == n then past[l] else f[n][l])
  }

  lemma BypassNone(f: Forwards, past: seq<Node?>, preds: seq<Node?>)
    requires |past| <= |preds|
    ensures Bypassed(f, f, past, preds, |past|)
  {
  }

  lemma BypassOne(f: Forwards, f1: Forwards, f2: Forwards, past: seq<Node?>, preds: seq<Node?>, l: nat, p: Node)
    requires Bypassed(f, f1, past, preds, l + 1) && l < |past| && preds[l] == p && p in f1 && l < |f1[p]|
    requires f2 == f1[p := f1[p][l := past[l]]]
    ensures Bypassed(f, f2, past, preds, l)
  {
  }

  lemma RemovedMade(k: Links, k': Links, f': Forwards, victim: Node, preds: seq<Node?>)
    requires victim in k.live && victim in k.forward && k.forward.Keys == k.live + {k.head} && victim != k.head
    requires |k.forward[victim]| == victim.topLevel + 1 && victim.topLevel < k.maxLevel == |preds|
    requires Bypassed(k.forward, f', k.forward[victim], preds, 0)
    requires k' == k.(live := k.live - {victim}, forward := f' - {victim})
    ensures Removed(k, k', victim, preds)
  {
  }

  /** Only the recorded predecessor points at the victim. */
  lemma OnlyPredecessor(k: Links, victim: Node, p: Node, n: Node, l: nat)
    requires LinksOk(k) && Brackets(k, victim.key, p, victim, l) && At(k, n, l) && k.forward[n][l] == victim
    ensures n == p
  {
    hide LinksOk;
    NodesAt(k);
    EdgeAt(k, n, l);
    if n != k.head { NextAt(k, p, n, l); }
    if p != k.head { NextAt(k, n, p, l); }
  }

  lemma RemoveEdgeAt(k: Links, k': Links, victim: Node, preds: seq<Node?>, n: Node, l: nat)
    requires CanRemove(k, k', victim, preds) && At(k', n, l)
    ensures EdgeOk(k', n, l)
  {
    hide LinksOk;
    NodesAt(k);
    assert At(k, n, l);
    EdgeAt(k, n, l);
    if l <= victim.topLevel {
      assert Brackets(k, victim.key, preds[l], victim, l);
      assert At(k, victim, l);
      EdgeAt(k, victim, l);
      if k.forward[n][l] == victim { OnlyPredecessor(k, victim, preds[l], n, l); }
    }
  }

  lemma RemoveNextAt(k: Links, k': Links, victim: Node, preds: seq<Node?>, n: Node, m: Node, l: nat)
    requires CanRemove(k, k', victim, preds) && At(k', n, l) && Listed(k', m, l)
    ensures NextOk(k', n, m, l)
  {
    hide LinksOk;
    NodesAt(k);
    assert At(k, n, l);
    NextAt(k, n, m, l);
    if l <= victim.topLevel && preds[l] == n {
      assert Brackets(k, victim.key, preds[l], victim, l);
      assert At(k, victim, l);
      NextAt(k, victim, m, l);
    }
  }

  lemma RemoveKeeps(k: Links, k': Links, victim: Node, preds: seq<Node?>)
    requires CanRemove(k, k', victim, preds)
    ensures LinksOk(k')
  {
    hide LinksOk;
    NodesAt(k);
    assert NodesOk(k');
    assert UniqueKeys(k');
    hide NodesOk, UniqueKeys, CanRemove;
    assert EdgesOk(k') by {
      forall n, l: nat | At(k', n, l) ensures EdgeOk(k', n, l) { RemoveEdgeAt(k, k', victim, preds, n, l); }
    }
    assert NextsOk(k') by {
      forall n, m, l: nat | At(k', n, l) && Listed(k', m, l) ensures NextOk(k', n, m, l) {
        RemoveNextAt(k, k', victim, preds, n, m, l);
      }
    }
    assert LinksOk(k') by { LinksMade(k'); }
  }

  // -------------------------------------------------------------- current level

  /** `level` is the highest level in use, or one when the list is empty. */
  ghost predicate LevelAt(k: Links, level: nat) {
    && k.head in k.forward && 1 <= level <= k.maxLevel <= |k.forward[k.head]|
    && (forall l :: level <= l < k.maxLevel ==> k.forward[k.head][l] == null)
    && (level == 1 || k.forward[k.head][level - 1] != null)
  }

  /** No live node reaches above the level, and one reaches up to it. */
  lemma LevelIsHighest(k: Links, level: nat)
    requires LinksOk(k) && LevelAt(k, level)
    ensures forall n :: n in k.live ==> n.topLevel < level
    ensures level == 1 || exists n :: n in k.live && n.topLevel + 1 == level
  {
    hide LinksOk;
    NodesAt(k);
    forall n | n in k.live ensures n.topLevel < level {
      assert At(k, k.head, n.topLevel) && Listed(k, n, n.topLevel);
      NextAt(k, k.head, n, n.topLevel);
    }
    if level > 1 {
      assert At(k, k.head, level - 1);
      EdgeAt(k, k.head, level - 1);
      assert k.forward[k.head][level - 1].topLevel + 1 == level;
    }
  }

  lemma LevelInserted(k: Links, k': Links, node: Node, preds: seq<Node?>, succs: seq<Node?>, level: nat)
    requires CanInsert(k, k', node, preds, succs) && LevelAt(k, level)
    ensures LevelAt(k', if node.topLevel + 1 > level then node.topLevel + 1 else level)
  {
    LevelIsHighest(k, level);
    hide LinksOk;
    NodesAt(k);
    var l := node.topLevel;
    assert Brackets(k, node.key, preds[l], succs[l], l);
    assert l >= level ==> preds[l] == k.head;
    assert k.head in k.forward && k.head in k'.forward && |k'.forward[k.head]| == k.maxLevel;
  }
}
