/** The skip list as a class, run by a single caller, refining a plain map. */
module SkipListIndex {
  import opened Bytes
  import opened Orders
  import opened SortedMap
  import opened SkipListLinks

  const WORD: nat := 0x1_0000_0000_0000_0000

  class SkipList {
    const less: Order
    const maxLevel: nat
    const head: Node
    var owned: seq<Node>
    var currentLevel: nat
    var size: nat
    ghost var live: set<Node>

    ghost function View(): Links
      reads this`live, head`forward, live`forward
    {
      Links(less, maxLevel, head, live, ForwardsOf(live + {head}))
    }

    /** Live nodes are owned, complete and not deleted. */
    ghost predicate FlagsOk()
      reads this`owned, this`live, head`marked, live`marked, live`fullyLinked
    {
      !head.marked && forall n :: n in live ==> n in owned && !n.marked && n.fullyLinked
    }

    ghost predicate Valid()
      reads this, head, live
    {
      && LinksOk(View()) && FlagsOk()
      && size == |live| % WORD
      && LevelAt(View(), currentLevel)
    }

    /** The map the list stands for. */
    ghost function Map(): map<Bytes, Bytes>
      requires Valid()
      reads this, head, live
    {
      NodesAt(View());
      MapOf(live)
    }

    constructor (less: Order, maxLevel: nat)
      requires StrictTotalOrder(less)
      ensures Valid() && Map() == map[] && live == {} && fresh(head) && this.less == less
      ensures this.maxLevel == if maxLevel == 0 then 1 else maxLevel
    {
      var levels := if maxLevel == 0 then 1 else maxLevel;
      var node := new Node(levels - 1, [], []);
      this.less := less;
      this.maxLevel := levels;
      this.head := node;
      this.owned := [];
      this.currentLevel := 1;
      this.size := 0;
      this.live := {};
    }

    /** current_level_ is one above the highest live node, and at least one. */
    lemma CurrentLevelExact()
      requires Valid()
      ensures forall n :: n in live ==> n.topLevel < currentLevel
      ensures currentLevel == 1 || exists n :: n in live && n.topLevel + 1 == currentLevel
    {
      hide LinksOk;
      LevelIsHighest(View(), currentLevel);
    }

    predicate KeysEqual(lhs: Bytes, rhs: Bytes) { !less(lhs, rhs) && !less(rhs, lhs) }

    /** The live nodes above `n`: what a search from `n` has left to pass. */
    ghost function Ahead(n: Node): set<Node>
      reads this
    {
      set m | m in live && (n == head || less(n.key, m.key))
    }

    lemma AheadShrinks(n: Node, m: Node)
      requires Valid() && m in live && m != head && (n == head || less(n.key, m.key))
      ensures Ahead(m) < Ahead(n)
    {
      NodesAt(View());
      hide LinksOk;
      assert m in Ahead(n) && m !in Ahead(m);
    }

    /** One level of the search: walk right while the next key is smaller. */
    method Descend(from: Node, level: nat, key: Bytes) returns (p: Node, s: Node?)
      requires Valid() && At(View(), from, level) && Below(View(), from, key)
      ensures Brackets(View(), key, p, s, level)
    {
      hide LinksOk;
      NodesAt(View());
      p := from;
      s := p.forward[level];
      while s != null && less(s.key, key)
        invariant At(View(), p, level) && Below(View(), p, key) && s == p.forward[level]
        decreases Ahead(p)
      {
        EdgeAt(View(), p, level);
        AheadShrinks(p, s);
        p := s;
        s := p.forward[level];
      }
      EdgeAt(View(), p, level);
    }

    /** The search results bracket the key at every level of the list. */
    ghost predicate Bracketed(key: Bytes, preds: seq<Node?>, succs: seq<Node?>, from: nat, to: nat)
      reads this, head, live
    {
      && to <= |preds| == |succs|
      && forall l: nat :: from <= l < to ==> preds[l] != null && Brackets(View(), key, preds[l], succs[l], l)
    }

    /** The descent of FindNode through the levels in use. */
    method FindActive(key: Bytes) returns (found: int, preds: seq<Node?>, succs: seq<Node?>)
      requires Valid()
      ensures |preds| == |succs| == maxLevel && Bracketed(key, preds, succs, 0, currentLevel)
      ensures found == -1 ==> succs[0] == null || succs[0].key != key
      ensures found != -1 ==> 0 <= found < currentLevel && succs[found] != null && succs[found].key == key
    {
      hide LinksOk, FlagsOk, LevelAt, Bracketed, Brackets, At, Below, View;
      Starts(key);
      preds, succs := seq(maxLevel, _ => null), seq(maxLevel, _ => null);
      assert Bracketed(key, preds, succs, currentLevel, currentLevel) by {
        NoBrackets(key, preds, succs, currentLevel);
      }
      found := -1;
      var predecessor := head;
      var level := currentLevel;
      while level > 0
        invariant 0 <= level <= currentLevel && |preds| == |succs| == maxLevel
        invariant level > 0 ==> At(View(), predecessor, level - 1) && Below(View(), predecessor, key)
        invariant Bracketed(key, preds, succs, level, currentLevel)
        invariant found == -1 && level < currentLevel ==> succs[level] == null || succs[level].key != key
        invariant found != -1 ==> level <= found < currentLevel && succs[found] != null && succs[found].key == key
      {
        var current;
        predecessor, current := Descend(predecessor, level - 1, key);
        level := level - 1;
        Descended(key, predecessor, current, level);
        if found == -1 && current != null && KeysEqual(current.key, key) {
          found := level;
        }
        RecordBrackets(key, preds, succs, level, currentLevel, predecessor, current);
        preds, succs := preds[level := predecessor], succs[level := current];
      }
    }

    /** The search starts at the head on the highest level in use. */
    lemma Starts(key: Bytes)
      requires Valid()
      ensures 1 <= currentLevel <= maxLevel && At(View(), head, currentLevel - 1) && Below(View(), head, key)
    {
      hide LinksOk;
      NodesAt(View());
    }

    /** The search can go on one level down, and has found the key exactly when the keys are equal. */
    lemma Descended(key: Bytes, p: Node, s: Node?, l: nat)
      requires Valid() && Brackets(View(), key, p, s, l)
      ensures Below(View(), p, key) && (l > 0 ==> At(View(), p, l - 1))
      ensures s != null ==> (KeysEqual(s.key, key) <==> s.key == key)
    {
      hide LinksOk;
      NodesAt(View());
      hide EdgesOk, NextsOk, UniqueKeys;
    }

    lemma NoBrackets(key: Bytes, preds: seq<Node?>, succs: seq<Node?>, to: nat)
      requires to <= |preds| == |succs|
      ensures Bracketed(key, preds, succs, to, to)
    {
    }

    lemma ExtendBrackets(key: Bytes, preds: seq<Node?>, succs: seq<Node?>, l: nat)
      requires l < |preds| == |succs| && Bracketed(key, preds, succs, 0, l) && Brackets(View(), key, head, null, l)
      ensures Bracketed(key, preds[l := head], succs[l := null], 0, l + 1)
    {
      hide Brackets, View;
    }

    lemma RecordBrackets(key: Bytes, preds: seq<Node?>, succs: seq<Node?>, l: nat, to: nat, p: Node, s: Node?)
      requires l < to <= |preds| == |succs| && Bracketed(key, preds, succs, l + 1, to) && Brackets(View(), key, p, s, l)
      ensures Bracketed(key, preds[l := p], succs[l := s], l, to)
    {
    }

    method FindNode(key: Bytes) returns (found: int, preds: seq<Node?>, succs: seq<Node?>)
      requires Valid()
      ensures |preds| == |succs| == maxLevel && Bracketed(key, preds, succs, 0, maxLevel)
      ensures found == -1 ==> key !in Map() && forall n :: n in live ==> n.key != key
      ensures found != -1 ==> 0 <= found < maxLevel && succs[found] != null
                              && succs[found] in live && succs[found].key == key && key in Map()
    {
      hide LinksOk, FlagsOk, LevelAt, Bracketed, Brackets, View, MapOf;
      Starts(key);
      found, preds, succs := FindActive(key);
      var level := currentLevel;
      while level < maxLevel
        invariant currentLevel <= level <= maxLevel && |preds| == |succs| == maxLevel
        invariant Bracketed(key, preds, succs, 0, level)
        invariant found == -1 ==> succs[0] == null || succs[0].key != key
        invariant found != -1 ==> 0 <= found < currentLevel && succs[found] != null && succs[found].key == key
      {
        HeadBrackets(key, level);
        ExtendBrackets(key, preds, succs, level);
        preds, succs := preds[level := head], succs[level := null];
        level := level + 1;
      }
      Missing(key, preds, succs, found);
    }

    /** Above the levels in use the head leads nowhere. */
    lemma HeadBrackets(key: Bytes, l: nat)
      requires Valid() && currentLevel <= l < maxLevel
      ensures Brackets(View(), key, head, null, l)
    {
      hide LinksOk;
      NodesAt(View());
    }

    lemma Missing(key: Bytes, preds: seq<Node?>, succs: seq<Node?>, found: int)
      requires Valid() && |preds| == |succs| == maxLevel && Bracketed(key, preds, succs, 0, maxLevel)
      requires found == -1 ==> succs[0] == null || succs[0].key != key
      requires found != -1 ==> 0 <= found < maxLevel && succs[found] != null && succs[found].key == key
      ensures found == -1 ==> key !in Map() && forall n :: n in live ==> n.key != key
      ensures found != -1 ==> succs[found] in live && key in Map()
    {
      hide LinksOk;
      NodesAt(View());
      var l := if found == -1 then 0 else found;
      assert Brackets(View(), key, preds[l], succs[l], l);
      if found == -1 {
        forall m | m in live ensures m.key != key {
          if m.key == key { FoundEverywhere(View(), key, preds[0], succs[0], 0, m); }
        }
      }
    }

    /** CanInsert: the recorded neighbours are still unmarked neighbours. */
    method CanInsert(preds: seq<Node?>, succs: seq<Node?>, nodeLevel: nat) returns (ok: bool)
      requires nodeLevel < |preds| == |succs|
      requires forall l :: 0 <= l <= nodeLevel && preds[l] != null ==> l < |preds[l].forward|
      ensures ok <==> forall l :: 0 <= l <= nodeLevel ==>
                        preds[l] != null && !preds[l].marked && (succs[l] == null || !succs[l].marked)
                        && preds[l].forward[l] == succs[l]
    {
      var level := 0;
      while level <= nodeLevel
        invariant 0 <= level <= nodeLevel + 1
        invariant forall l :: 0 <= l < level ==>
                    preds[l] != null && !preds[l].marked && (succs[l] == null || !succs[l].marked)
                    && preds[l].forward[l] == succs[l]
      {
        var predecessor, successor := preds[level], succs[level];
        if predecessor == null || predecessor.marked { return false; }
        if successor != null && successor.marked { return false; }
        if predecessor.forward[level] != successor { return false; }
        level := level + 1;
      }
      return true;
    }

    /** Every level between 1 and max_level is possible. */
    method RandomLevel() returns (level: nat)
      requires maxLevel >= 1
      ensures 1 <= level <= maxLevel
    {
      level := 1;
      var heads: bool := *;
      while level < maxLevel && heads
        invariant 1 <= level <= maxLevel
      {
        level := level + 1;
        heads := *;
      }
    }

    method RaiseCurrentLevel(candidate: nat)
      modifies this`currentLevel
      ensures currentLevel == if candidate > old(currentLevel) then candidate else old(currentLevel)
    {
      var observed := currentLevel;
      if candidate > observed {
        currentLevel := candidate;
      }
    }

    method RecomputeCurrentLevel()
      requires 1 <= maxLevel <= |head.forward|
      modifies this`currentLevel
      ensures LevelAt(View(), currentLevel)
    {
      var level := maxLevel;
      while level > 1 && head.forward[level - 1] == null
        invariant 1 <= level <= maxLevel
        invariant forall l :: level <= l < maxLevel ==> head.forward[l] == null
      {
        level := level - 1;
      }
      currentLevel := level;
    }

    /** Link a prepared node behind its predecessors, bottom level first. */
    method LinkNode(node: Node, preds: seq<Node?>, ghost nodes: set<Node>)
      requires node.topLevel < |preds| && node !in nodes
      requires forall l: nat :: l <= node.topLevel ==> preds[l] != null && preds[l] in nodes && l < |preds[l].forward|
      modifies nodes`forward
      ensures Spliced(old(ForwardsOf(nodes)), ForwardsOf(nodes), node, preds, node.topLevel + 1)
    {
      hide Spliced;
      ghost var f := ForwardsOf(nodes);
      assert Spliced(f, ForwardsOf(nodes), node, preds, 0) by { SpliceNone(f, node, preds); }
      var level := 0;
      while level <= node.topLevel
        invariant 0 <= level <= node.topLevel + 1
        invariant forall l: nat :: l <= node.topLevel ==> l < |preds[l].forward|
        invariant Spliced(f, ForwardsOf(nodes), node, preds, level)
      {
        ghost var f1 := ForwardsOf(nodes);
        var predecessor := preds[level];
        predecessor.forward := predecessor.forward[level := node];
        assert ForwardsOf(nodes) == f1[predecessor := f1[predecessor][level := node]];
        SpliceOne(f, f1, ForwardsOf(nodes), node, preds, level, predecessor);
        level := level + 1;
      }
    }

    /** A fresh node that already points at its successors. */
    method MakeNode(key: Bytes, value: Bytes, nodeLevel: nat, succs: seq<Node?>) returns (node: Node)
      requires nodeLevel < |succs|
      ensures fresh(node) && node.key == key && node.value == value && node.topLevel == nodeLevel
      ensures !node.marked && !node.fullyLinked && node.forward == succs[..nodeLevel + 1]
    {
      node := new Node(nodeLevel, key, value);
      var level := 0;
      while level <= nodeLevel
        invariant 0 <= level <= nodeLevel + 1 == |node.forward|
        invariant node.forward[..level] == succs[..level]
        invariant node.value == value && !node.marked && !node.fullyLinked
      {
        node.forward := node.forward[level := succs[level]];
        level := level + 1;
      }
    }

    /** One attempt of Put. It never has to be repeated by a single caller. */
    method TryPut(key: Bytes, value: Bytes) returns (done: bool, inserted: bool)
      requires Valid()
      modifies this, head, live
      ensures Valid() && done && inserted == (key !in old(Map()))
      ensures Map() == old(Map())[key := value]
      ensures forall n :: n in live ==> n in old(live) || fresh(n)
    {
      hide LinksOk, Brackets, LevelAt;
      var found, preds, succs := FindNode(key);
      if found != -1 {
        done := Overwrite(succs[found], value);
        inserted := false;
      } else {
        var level := RandomLevel() by { NodesAt(View()); }
        done, inserted := InsertAt(key, value, preds, succs, level - 1);
      }
    }

    /** Overwriting one live node's value overwrites one entry of the map. */
    method Overwrite(existing: Node, value: Bytes) returns (done: bool)
      requires Valid() && existing in live
      modifies existing`value
      ensures Valid() && done && Map() == old(Map())[existing.key := value]
    {
      ghost var k := View();
      NodesAt(k);
      hide LinksOk, NodesOk, LevelAt;
      done := !existing.marked && existing.fullyLinked;
      if done {
        existing.value := value;
      }
      assert View() == k;
    }

    /** With a single caller nothing the search recorded can have changed. */
    lemma StillNeighbours(key: Bytes, preds: seq<Node?>, succs: seq<Node?>)
      requires Valid() && |preds| == |succs| == maxLevel && Bracketed(key, preds, succs, 0, maxLevel)
      ensures forall l :: 0 <= l < maxLevel ==>
                preds[l] != null && preds[l] in live + {head} && !preds[l].marked && l < |preds[l].forward|
                && (succs[l] == null || !succs[l].marked) && preds[l].forward[l] == succs[l]
    {
      hide LinksOk;
      NodesAt(View());
      forall l | 0 <= l < maxLevel
        ensures preds[l] != null && preds[l] in live + {head} && !preds[l].marked && l < |preds[l].forward|
                && (succs[l] == null || !succs[l].marked) && preds[l].forward[l] == succs[l]
      {
        assert Brackets(View(), key, preds[l], succs[l], l);
      }
    }

    /** Allocate a node, own it, and link it bottom-up at its levels. */
    method PlaceNode(key: Bytes, value: Bytes, preds: seq<Node?>, succs: seq<Node?>, nodeLevel: nat)
        returns (node: Node)
      requires head !in live && |preds| == |succs| == maxLevel && nodeLevel < maxLevel
      requires forall l: nat :: l < maxLevel ==> preds[l] != null && preds[l] in live + {head} && l < |preds[l].forward|
      modifies this`owned, this`live, head`forward, live`forward
      ensures fresh(node) && node.key == key && node.topLevel == nodeLevel
      ensures node.value == value && !node.marked && node.fullyLinked
      ensures live == old(live) + {node} && owned == old(owned) + [node]
      ensures Inserted(old(View()), View(), node, preds, succs)
    {
      hide Spliced, Inserted, ForwardsOf;
      ghost var k := View();
      ghost var nodes := live + {head};
      assert k.forward.Keys == nodes by { ForwardKeys(nodes); }
      node := MakeNode(key, value, nodeLevel, succs);
      owned := owned + [node];
      assert ForwardsOf(nodes) == k.forward;
      LinkNode(node, preds, nodes);
      node.fullyLinked := true;
      ghost var f' := ForwardsOf(nodes);
      live := live + {node};
      assert live + {head} == nodes + {node};
      assert ForwardsOf(nodes) == f';
      AddForward(nodes, node);
      assert View() == k.(live := k.live + {node}, forward := f'[node := succs[..nodeLevel + 1]]);
      InsertedMade(k, View(), f', node, preds, succs);
    }

    lemma AddForward(nodes: set<Node>, node: Node)
      requires node !in nodes
      ensures ForwardsOf(nodes + {node}) == ForwardsOf(nodes)[node := node.forward]
    {
    }

    lemma ForwardKeys(nodes: set<Node>)
      ensures ForwardsOf(nodes).Keys == nodes
    {
    }

    /** Link a new node: everything about the list but its counters. */
    method InsertLinks(key: Bytes, value: Bytes, preds: seq<Node?>, succs: seq<Node?>, nodeLevel: nat)
        returns (node: Node)
      requires Valid() && |preds| == |succs| == maxLevel && nodeLevel < maxLevel
      requires Bracketed(key, preds, succs, 0, maxLevel) && forall n :: n in live ==> n.key != key
      requires forall l: nat :: l < maxLevel ==> preds[l] != null && preds[l] in live + {head} && l < |preds[l].forward|
      modifies this`owned, this`live, head`forward, live`forward
      ensures fresh(node) && live == old(live) + {node} && LinksOk(View()) && FlagsOk()
      ensures LevelAt(View(), if nodeLevel + 1 > currentLevel then nodeLevel + 1 else currentLevel)
      ensures DistinctKeys(live) && MapOf(live) == old(Map())[key := value]
    {
      hide LinksOk, Brackets, LevelAt, Inserted, ForwardsOf, DistinctKeys, MapOf;
      ghost var k := View();
      ghost var before, m := live, Map();
      assert head !in live && DistinctKeys(live) by { NodesAt(k); }
      assert forall l: nat :: l < maxLevel ==> Brackets(k, key, preds[l], succs[l], l);
      hide Bracketed;
      node := PlaceNode(key, value, preds, succs, nodeLevel);
      assert MapOf(before) == m;
      assert FlagsOk();
      hide FlagsOk;
      ghost var k' := View();
      InsertKeeps(k, k', node, preds, succs);
      LevelInserted(k, k', node, preds, succs, currentLevel);
      assert DistinctKeys(live) by { NodesAt(k'); }
      hide SkipListLinks.CanInsert, View;
      MapAdd(before, node);
    }

    /** The insertion proper, between validation and return. */
    method InsertHere(key: Bytes, value: Bytes, preds: seq<Node?>, succs: seq<Node?>, nodeLevel: nat)
      requires Valid() && |preds| == |succs| == maxLevel && nodeLevel < maxLevel
      requires Bracketed(key, preds, succs, 0, maxLevel) && forall n :: n in live ==> n.key != key
      requires forall l: nat :: l < maxLevel ==> preds[l] != null && preds[l] in live + {head} && l < |preds[l].forward|
      modifies this, head, live
      ensures Valid() && Map() == old(Map())[key := value]
      ensures forall n :: n in live ==> n in old(live) || fresh(n)
    {
      hide LinksOk, Bracketed, LevelAt, ForwardsOf, DistinctKeys, MapOf, Brackets, StrictTotalOrder, NodesOk, EdgesOk,
          NextsOk;
      var node := InsertLinks(key, value, preds, succs, nodeLevel);
      CountedUp(old(live), node);
      hide FlagsOk, View;
      CountInsert(nodeLevel + 1);
    }

    static lemma CountedUp(nodes: set<Node>, node: Node)
      requires node !in nodes
      ensures (|nodes| % WORD + 1) % WORD == |nodes + {node}| % WORD
    {
      assert |nodes + {node}| == |nodes| + 1;
    }

    static lemma CountedDown(nodes: set<Node>, node: Node)
      requires node !in nodes
      ensures (|nodes + {node}| % WORD + WORD - 1) % WORD == |nodes| % WORD
    {
      assert |nodes + {node}| == |nodes| + 1;
    }

    method CountInsert(height: nat)
      modifies this`size, this`currentLevel
      ensures size == (old(size) + 1) % WORD
      ensures currentLevel == if height > old(currentLevel) then height else old(currentLevel)
    {
      size := (size + 1) % WORD;
      RaiseCurrentLevel(height);
    }

    method InsertAt(key: Bytes, value: Bytes, preds: seq<Node?>, succs: seq<Node?>, nodeLevel: nat)
      returns (done: bool, inserted: bool)
      requires Valid() && |preds| == |succs| == maxLevel && nodeLevel < maxLevel
      requires Bracketed(key, preds, succs, 0, maxLevel) && forall n :: n in live ==> n.key != key
      modifies this, head, live
      ensures Valid() && done && inserted
      ensures Map() == old(Map())[key := value]
      ensures forall n :: n in live ==> n in old(live) || fresh(n)
    {
      hide LinksOk, Brackets, LevelAt, Inserted;
      StillNeighbours(key, preds, succs);
      done := CanInsert(preds, succs, nodeLevel);
      inserted := done;
      if done {
        InsertHere(key, value, preds, succs, nodeLevel);
      }
    }

    /** Insert or overwrite; true when the key was new. */
    method Put(key: Bytes, value: Bytes) returns (inserted: bool)
      requires Valid()
      modifies this, head, live
      ensures Valid() && Map() == old(Map())[key := value] && inserted == (key !in old(Map()))
      ensures forall n :: n in live ==> n in old(live) || fresh(n)
    {
      var done := false;
      inserted := false;
      while !done
        invariant Valid() && forall n :: n in live ==> n in old(live) || fresh(n)
        invariant if done then Map() == old(Map())[key := value] && inserted == (key !in old(Map()))
                  else live == old(live) && Map() == old(Map())
        decreases !done
      {
        done, inserted := TryPut(key, value);
      }
    }

    /** CanDelete: every recorded predecessor is unmarked and still points at the victim. */
    method CanDelete(preds: seq<Node?>, victim: Node) returns (ok: bool)
      requires victim.topLevel < |preds|
      requires forall l :: 0 <= l <= victim.topLevel && preds[l] != null ==> l < |preds[l].forward|
      ensures ok <==> forall l :: 0 <= l <= victim.topLevel ==>
                        preds[l] != null && !preds[l].marked && preds[l].forward[l] == victim
    {
      var level := 0;
      while level <= victim.topLevel
        invariant 0 <= level <= victim.topLevel + 1
        invariant forall l :: 0 <= l < level ==> preds[l] != null && !preds[l].marked && preds[l].forward[l] == victim
      {
        var predecessor := preds[level];
        if predecessor == null || predecessor.marked || predecessor.forward[level] != victim { return false; }
        level := level + 1;
      }
      return true;
    }

    /** Bypass the victim from its top level down. */
    method UnlinkNode(victim: Node, preds: seq<Node?>, ghost nodes: set<Node>)
      requires |victim.forward| == victim.topLevel + 1 <= |preds|
      requires forall l: nat :: l <= victim.topLevel ==>
                 preds[l] != null && preds[l] in nodes && preds[l] != victim && l < |preds[l].forward|
      modifies nodes`forward
      ensures Bypassed(old(ForwardsOf(nodes)), ForwardsOf(nodes), old(victim.forward), preds, 0)
    {
      hide Bypassed;
      ghost var f := ForwardsOf(nodes);
      ghost var past := victim.forward;
      assert Bypassed(f, f, past, preds, |past|) by { BypassNone(f, past, preds); }
      var level := victim.topLevel + 1;
      while level > 0
        invariant 0 <= level <= victim.topLevel + 1 && victim.forward == past
        invariant forall l: nat :: l <= victim.topLevel ==> l < |preds[l].forward|
        invariant Bypassed(f, ForwardsOf(nodes), past, preds, level)
      {
        level := level - 1;
        ghost var f1 := ForwardsOf(nodes);
        var predecessor := preds[level];
        predecessor.forward := predecessor.forward[level := victim.forward[level]];
        assert ForwardsOf(nodes) == f1[predecessor := f1[predecessor][level := past[level]]];
        BypassOne(f, f1, ForwardsOf(nodes), past, preds, level, predecessor);
      }
    }

    lemma DropForward(nodes: set<Node>, node: Node)
      ensures ForwardsOf(nodes - {node}) == ForwardsOf(nodes) - {node}
    {
    }

    /** Mark the victim and take it out of every level. */
    method RemoveNode(victim: Node, preds: seq<Node?>)
      requires head !in live && victim in live && |preds| == maxLevel && victim.topLevel < maxLevel
      requires |victim.forward| == victim.topLevel + 1
      requires forall l: nat :: l <= victim.topLevel ==>
                 preds[l] != null && preds[l] in live + {head} && preds[l] != victim && l < |preds[l].forward|
      modifies this`live, victim`marked, head`forward, live`forward
      ensures live == old(live) - {victim}
      ensures Removed(old(View()), View(), victim, preds)
    {
      hide Bypassed, Removed;
      ghost var k := View();
      ghost var nodes := live + {head};
      assert k.forward[victim] == victim.forward;
      victim.marked := true;
      UnlinkNode(victim, preds, nodes);
      ghost var f' := ForwardsOf(nodes);
      live := live - {victim};
      assert live + {head} == nodes - {victim};
      DropForward(nodes, victim);
      assert View() == k.(live := k.live - {victim}, forward := f' - {victim});
      RemovedMade(k, View(), f', victim, preds);
    }

    /** What the search recorded about the node it found, level by level. */
    lemma VictimNeighbours(key: Bytes, preds: seq<Node?>, succs: seq<Node?>, victim: Node)
      requires Valid() && |preds| == |succs| == maxLevel && Bracketed(key, preds, succs, 0, maxLevel)
      requires victim in live && victim.key == key
      ensures head !in live && victim.topLevel < maxLevel && |victim.forward| == victim.topLevel + 1
      ensures forall l: nat :: l <= victim.topLevel ==>
                preds[l] != null && preds[l] in live + {head} && preds[l] != victim && !preds[l].marked
                && l < |preds[l].forward| && preds[l].forward[l] == victim
                && Brackets(View(), victim.key, preds[l], victim, l)
    {
      hide LinksOk;
      NodesAt(View());
      forall l: nat | l <= victim.topLevel
        ensures preds[l] != null && preds[l] in live + {head} && preds[l] != victim && !preds[l].marked
                && l < |preds[l].forward| && preds[l].forward[l] == victim
                && Brackets(View(), victim.key, preds[l], victim, l)
      {
        assert Brackets(View(), key, preds[l], succs[l], l);
        FoundEverywhere(View(), key, preds[l], succs[l], l, victim);
      }
    }

    method RemoveLinks(victim: Node, preds: seq<Node?>, succs: seq<Node?>)
      requires Valid() && |preds| == |succs| == maxLevel && Bracketed(victim.key, preds, succs, 0, maxLevel)
      requires victim in live
      modifies this`live, victim`marked, head`forward, live`forward
      ensures live == old(live) - {victim} && LinksOk(View()) && FlagsOk() && |head.forward| == maxLevel
      ensures DistinctKeys(live) && MapOf(live) == old(Map()) - {victim.key}
    {
      hide LinksOk, Brackets, LevelAt, Removed, ForwardsOf, DistinctKeys, MapOf;
      ghost var k := View();
      ghost var before, m := live, Map();
      VictimNeighbours(victim.key, preds, succs, victim);
      assert DistinctKeys(live) by { NodesAt(k); }
      hide Bracketed;
      RemoveNode(victim, preds);
      assert MapOf(before) == m;
      assert FlagsOk();
      hide FlagsOk;
      ghost var k' := View();
      RemoveKeeps(k, k', victim, preds);
      assert DistinctKeys(live) && |head.forward| == maxLevel by { NodesAt(k'); HeadLevels(); }
      hide CanRemove, View;
      MapDrop(before, victim);
    }

    lemma HeadLevels()
      requires NodesOk(View())
      ensures |head.forward| == maxLevel >= 1
    {
      assert View().forward[head] == head.forward;
    }

    /** Account for a removal and find the highest level still in use. */
    method RemoveHere(victim: Node, preds: seq<Node?>, succs: seq<Node?>)
      requires Valid() && |preds| == |succs| == maxLevel && Bracketed(victim.key, preds, succs, 0, maxLevel)
      requires victim in live
      modifies this, head, live
      ensures Valid() && Map() == old(Map()) - {victim.key} && live == old(live) - {victim}
    {
      hide LinksOk, Bracketed, LevelAt, ForwardsOf, DistinctKeys, MapOf;
      assert maxLevel >= 1 by { NodesAt(View()); }
      CountedDown(old(live) - {victim}, victim);
      assert (old(live) - {victim}) + {victim} == old(live);
      RemoveLinks(victim, preds, succs);
      hide FlagsOk, View;
      size := (size + WORD - 1) % WORD;
      RecomputeCurrentLevel();
    }

    method TryDelete(key: Bytes) returns (done: bool, deleted: bool)
      requires Valid()
      modifies this, head, live
      ensures Valid() && done && deleted == (key in old(Map())) && Map() == old(Map()) - {key}
      ensures live <= old(live)
    {
      hide LinksOk, Brackets, LevelAt, ForwardsOf, MapOf, DistinctKeys, Bracketed;
      var found, preds, succs := FindNode(key);
      if found == -1 {
        return true, false;
      }
      var victim := succs[found];
      VictimNeighbours(key, preds, succs, victim);
      var neighbours := CanDelete(preds, victim);
      done := victim.fullyLinked && !victim.marked && !less(victim.key, key) && !less(key, victim.key) && neighbours;
      assert done by { NodesAt(View()); }
      deleted := done;
      if done {
        RemoveHere(victim, preds, succs);
      }
    }

    /** Remove a key; true when it was there. */
    method Delete(key: Bytes) returns (deleted: bool)
      requires Valid()
      modifies this, head, live
      ensures Valid() && Map() == old(Map()) - {key} && deleted == (key in old(Map()))
      ensures live <= old(live)
    {
      var done := false;
      deleted := false;
      while !done
        invariant Valid() && live <= old(live)
        invariant if done then Map() == old(Map()) - {key} && deleted == (key in old(Map()))
                  else live == old(live) && Map() == old(Map())
        decreases !done
      {
        done, deleted := TryDelete(key);
      }
    }

    /** The search of a reader: the last node below the key. */
    method Search(key: Bytes) returns (p: Node)
      requires Valid()
      ensures At(View(), p, 0) && Brackets(View(), key, p, p.forward[0], 0)
    {
      hide LinksOk;
      NodesAt(View());
      hide EdgesOk, NextsOk, UniqueKeys;
      p := head;
      var level := currentLevel;
      var s: Node?;
      while level > 0
        invariant 0 <= level <= currentLevel && Below(View(), p, key)
        invariant level > 0 ==> At(View(), p, level - 1)
        invariant level == 0 ==> At(View(), p, 0) && Brackets(View(), key, p, p.forward[0], 0)
      {
        p, s := Descend(p, level - 1, key);
        level := level - 1;
      }
    }

    method Get(key: Bytes) returns (found: bool, value: Bytes)
      requires Valid()
      ensures found == (key in Map()) && (found ==> value == Map()[key])
    {
      hide LinksOk;
      NodesAt(View());
      hide EdgesOk, NextsOk;
      var p := Search(key);
      var candidate := p.forward[0];
      value := [];
      found := candidate != null && KeysEqual(candidate.key, key);
      if found {
        found := !candidate.marked && candidate.fullyLinked;
        value := candidate.value;
      } else {
        Passed(p, key);
      }
    }

    /** A live key not below `p.forward[0]`'s key and not below `key` does not exist in between. */
    lemma Passed(p: Node, key: Bytes)
      requires Valid() && At(View(), p, 0) && Below(View(), p, key)
      ensures forall n :: n in live && !less(n.key, key) ==> p.forward[0] != null && !less(n.key, p.forward[0].key)
    {
      hide LinksOk;
      NodesAt(View());
      forall n | n in live && !less(n.key, key) ensures p.forward[0] != null && !less(n.key, p.forward[0].key) {
        NextAt(View(), p, n, 0);
      }
    }

    /** The part of the map a walk along the bottom level has met before `current`. */
    ghost function Met(current: Node?): map<Bytes, Bytes>
      requires Valid()
      reads this, head, live
    {
      map k | k in Map() && (current == null || less(k, current.key)) :: Map()[k]
    }

    /** Walking past one node adds exactly its pair. */
    lemma WalkedPast(current: Node)
      requires Valid() && current in live
      ensures |current.forward| > 0 && (current.forward[0] == null || current.forward[0] in live)
      ensures current.forward[0] != null ==> less(current.key, current.forward[0].key)
      ensures Met(current.forward[0]) == Met(current)[current.key := current.value]
    {
      hide LinksOk;
      NodesAt(View());
      assert At(View(), current, 0);
      EdgeAt(View(), current, 0);
      forall n | n in live && less(current.key, n.key)
        ensures current.forward[0] != null && !less(n.key, current.forward[0].key)
      {
        NextAt(View(), current, n, 0);
      }
    }

    lemma NothingMet(p: Node)
      requires Valid() && p == head
      ensures |head.forward| > 0 && Met(head.forward[0]) == map[]
      ensures head.forward[0] == null || head.forward[0] in live
    {
      hide LinksOk;
      NodesAt(View());
      assert At(View(), head, 0);
      EdgeAt(View(), head, 0);
      forall n | n in live ensures head.forward[0] != null && !less(n.key, head.forward[0].key) {
        NextAt(View(), head, n, 0);
      }
    }

    /** Every pair, in key order. */
    method Snapshot() returns (result: Pairs)
      requires Valid()
      ensures Lists(less, Map(), result)
    {
      hide LinksOk, Lists;
      NothingMet(head);
      ListsEmpty(less);
      result := [];
      var current := head.forward[0];
      while current != null
        invariant current == null || current in live
        invariant Lists(less, Met(current), result)
        decreases if current == null then 0 else 1, if current == null then {} else Ahead(current)
      {
        WalkedPast(current);
        if !current.marked && current.fullyLinked {
          ListsAppend(less, Met(current), result, current.key, current.value) by { NodesAt(View()); }
          result := result + [(current.key, current.value)];
        }
        if current.forward[0] != null { AheadShrinks(current, current.forward[0]) by { NodesAt(View()); } }
        current := current.forward[0];
      }
      assert Met(null) == Map();
    }

    /** The pairs with start <= key <= end, in key order. */
    method Scan(start: Bytes, end: Bytes) returns (result: Pairs)
      requires Valid()
      ensures Lists(less, Range(less, Map(), start, end), result)
    {
      hide LinksOk, Lists, Range, Met, Ahead;
      ListsEmpty(less);
      if less(end, start) {
        EmptyRange(start, end);
        return [];
      }
      var p := Search(start);
      ScanStarts(start, end, p);
      result := [];
      var current := p.forward[0];
      while current != null && !less(end, current.key)
        invariant current == null || (current in live && !less(current.key, start))
        invariant Lists(less, Range(less, Met(current), start, end), result)
        decreases if current == null then 0 else 1, if current == null then {} else Ahead(current)
      {
        ScanTakes(current, start, end, result);
        if !current.marked && current.fullyLinked {
          result := result + [(current.key, current.value)];
        }
        current := current.forward[0];
      }
      ScanEnds(current, start, end);
    }

    lemma EmptyRange(start: Bytes, end: Bytes)
      requires Valid() && less(end, start)
      ensures Range(less, Map(), start, end) == map[]
    {
      NodesAt(View());
    }

    lemma ScanStarts(start: Bytes, end: Bytes, p: Node)
      requires Valid() && At(View(), p, 0) && Brackets(View(), start, p, p.forward[0], 0)
      ensures p.forward[0] == null || (p.forward[0] in live && !less(p.forward[0].key, start))
      ensures Range(less, Met(p.forward[0]), start, end) == map[]
    {
      hide LinksOk;
      NodesAt(View());
      Passed(p, start);
    }

    lemma BelowCurrent(current: Node)
      requires Valid() && current in live
      ensures forall k :: k in Met(current) ==> k != current.key && less(k, current.key)
    {
      NodesAt(View());
      hide LinksOk;
    }

    /** One turn of the collecting loop. */
    lemma ScanTakes(current: Node, start: Bytes, end: Bytes, result: Pairs)
      requires Valid() && current in live && !less(current.key, start) && !less(end, current.key)
      requires Lists(less, Range(less, Met(current), start, end), result)
      ensures !current.marked && current.fullyLinked && |current.forward| > 0
      ensures var next := current.forward[0];
              next != null ==> next in live && Ahead(next) < Ahead(current) && !less(next.key, start)
      ensures Lists(less, Range(less, Met(current.forward[0]), start, end), result + [(current.key, current.value)])
    {
      WalkedPast(current);
      BelowCurrent(current);
      hide LinksOk, Lists;
      RangeExtends(less, Met(current), current.key, current.value, start, end);
      ListsAppend(less, Range(less, Met(current), start, end), result, current.key, current.value);
      if current.forward[0] != null { AheadShrinks(current, current.forward[0]) by { NodesAt(View()); } }
    }

    lemma ScanEnds(current: Node?, start: Bytes, end: Bytes)
      requires Valid() && (current == null || (current in live && less(end, current.key)))
      ensures Range(less, Met(current), start, end) == Range(less, Map(), start, end)
    {
      NodesAt(View());
      hide LinksOk;
    }

    method Size() returns (count: nat)
      requires Valid()
      ensures count == |Map()| % WORD
    {
      NodesAt(View());
      hide LinksOk;
      MapSize(live);
      count := size;
    }

    lemma MapSize(nodes: set<Node>)
      requires DistinctKeys(nodes)
      ensures |MapOf(nodes)| == |nodes|
    {
      KeyCount(nodes);
      assert MapOf(nodes).Keys == KeysOf(nodes);
    }

    static ghost function KeysOf(nodes: set<Node>): set<Bytes> { set n | n in nodes :: n.key }

    static lemma {:induction false} KeyCount(nodes: set<Node>)
      requires DistinctKeys(nodes)
      ensures |KeysOf(nodes)| == |nodes|
      decreases |nodes|
    {
      if nodes != {} {
        var n :| n in nodes;
        var rest := nodes - {n};
        assert n.key !in KeysOf(rest);
        assert KeysOf(nodes) == KeysOf(rest) + {n.key};
        KeyCount(rest);
      }
    }

    method Clear()
      requires Valid()
      modifies this, head
      ensures Valid() && Map() == map[] && live == {}
    {
      hide LinksOk, LevelAt;
      assert NodesOk(View()) by { NodesAt(View()); }
      HeadLevels();
      var level := 0;
      while level < maxLevel
        invariant 0 <= level <= maxLevel == |head.forward| && !head.marked
        invariant forall l :: 0 <= l < level ==> head.forward[l] == null
        invariant live == old(live)
      {
        head.forward := head.forward[level := null];
        level := level + 1;
      }
      owned := [];
      live := {};
      currentLevel := 1;
      size := 0;
      assert LinksOk(View()) && LevelAt(View(), 1) by { ClearedOk(); }
    }

    lemma ClearedOk()
      requires StrictTotalOrder(less) && maxLevel >= 1 && live == {} && |head.forward| == maxLevel
      requires forall l :: 0 <= l < maxLevel ==> head.forward[l] == null
      ensures LinksOk(View()) && LevelAt(View(), 1)
    {
    }
  }
}
