/** The mutex-guarded std::map that the benchmark compares the skip list with, and their agreement. */
module MapStores {
  import opened Wrappers
  import opened Bytes
  import opened Orders
  import opened SortedMap
  import opened SkipListIndex

  class MapStore {
    const less: Order
    var data: map<Bytes, Bytes>

    constructor (less: Order)
      ensures data == map[] && this.less == less
    {
      this.less := less;
      this.data := map[];
    }

    method Put(key: Bytes, value: Bytes) returns (inserted: bool)
      modifies this
      ensures data == old(data)[key := value] && inserted == (key !in old(data))
    {
      inserted := key !in data;
      data := data[key := value];
    }

    method Get(key: Bytes) returns (found: bool, value: Bytes)
      ensures found == (key in data) && (found ==> value == data[key])
    {
      found := key in data;
      value := if found then data[key] else [];
    }

    method Delete(key: Bytes) returns (deleted: bool)
      modifies this
      ensures data == old(data) - {key} && deleted == (key in old(data))
    {
      deleted := key in data;
      data := data - {key};
    }

    /** The least key that is not below `key`, or above `key` when `strictly`. */
    method NextKey(key: Bytes, strictly: bool) returns (next: Option<Bytes>)
      requires StrictTotalOrder(less)
      ensures next == None ==> forall k :: k in data ==> !Beyond(key, strictly, k)
      ensures next.Some? ==> next.value in data && Beyond(key, strictly, next.value)
                             && forall k :: k in data && Beyond(key, strictly, k) ==> !less(k, next.value)
    {
      var rest := set k | k in data && Beyond(key, strictly, k);
      next := None;
      ghost var all := rest;
      assert forall k :: k in data && Beyond(key, strictly, k) ==> k in all;
      while rest != {}
        invariant rest <= all
        invariant next == None ==> rest == all
        invariant next.Some? ==> next.value in all && forall k :: k in all && k !in rest ==> !less(k, next.value)
        decreases rest
      {
        var k :| k in rest;
        if next == None || less(k, next.value) { next := Some(k); }
        rest := rest - {k};
      }
    }

    predicate Beyond(key: Bytes, strictly: bool, k: Bytes) {
      if strictly then less(key, k) else !less(k, key)
    }

    /** What a scan has collected when it stands at `position`. */
    ghost function Collected(start: Bytes, position: Option<Bytes>): map<Bytes, Bytes>
      reads this
    {
      map k | k in data && !less(k, start) && (position == None || less(k, position.value)) :: data[k]
    }

    /** Going on to the key after `key` collects exactly the pair of `key`. */
    lemma CollectedNext(start: Bytes, end: Bytes, key: Bytes, next: Option<Bytes>, result: Pairs)
      requires StrictTotalOrder(less) && key in data && !less(key, start) && !less(end, key)
      requires next.Some? ==> less(key, next.value)
      requires forall k :: k in data && less(key, k) ==> next.Some? && !less(k, next.value)
      requires Lists(less, Collected(start, Some(key)), result)
      ensures Lists(less, Collected(start, next), result + [(key, data[key])])
      ensures Collected(start, Some(key)).Keys < Collected(start, next).Keys
    {
      assert Collected(start, next) == Collected(start, Some(key))[key := data[key]];
      assert forall k :: k in Collected(start, Some(key)) ==> k != key && less(k, key);
      hide Lists;
      ListsAppend(less, Collected(start, Some(key)), result, key, data[key]);
      assert key in Collected(start, next).Keys;
    }

    lemma CollectedStart(start: Bytes, position: Option<Bytes>)
      requires StrictTotalOrder(less)
      requires forall k :: k in data && !less(k, start) ==> position.Some? && !less(k, position.value)
      ensures Collected(start, position) == map[] && Lists(less, map[], [])
    {
    }

    lemma CollectedAll(start: Bytes, end: Bytes, position: Option<Bytes>)
      requires StrictTotalOrder(less) && (position.Some? ==> less(end, position.value))
      requires forall k :: k in Collected(start, position) ==> !less(end, k)
      ensures Collected(start, position) == Range(less, data, start, end)
    {
    }

    lemma CollectedBelow(start: Bytes, end: Bytes, key: Bytes, next: Option<Bytes>)
      requires StrictTotalOrder(less) && !less(end, key)
      requires forall k :: k in data && less(key, k) ==> next.Some? && !less(k, next.value)
      ensures forall k :: k in Collected(start, next) ==> !less(end, k)
    {
    }

    method Scan(start: Bytes, end: Bytes) returns (result: Pairs)
      requires StrictTotalOrder(less)
      ensures Lists(less, Range(less, data, start, end), result)
    {
      hide Lists, Collected;
      result := [];
      if less(end, start) {
        assert Range(less, data, start, end) == map[];
        ListsEmpty(less);
        return;
      }
      hide Range;
      var position := NextKey(start, false);
      CollectedStart(start, position);
      while position.Some? && !less(end, position.value)
        invariant position.Some? ==> position.value in data && !less(position.value, start)
        invariant forall k :: k in Collected(start, position) ==> !less(end, k)
        invariant Lists(less, Collected(start, position), result)
        decreases data.Keys - Collected(start, position).Keys
      {
        var key := position.value;
        position := NextKey(key, true);
        CollectedNext(start, end, key, position, result);
        CollectedBelow(start, end, key, position);
        CollectedKnown(start, position);
        result := result + [(key, data[key])];
      }
      CollectedAll(start, end, position);
    }

    lemma CollectedKnown(start: Bytes, position: Option<Bytes>)
      ensures Collected(start, position).Keys <= data.Keys
    {
    }

    method Size() returns (count: nat)
      ensures count == |data|
    {
      count := |data|;
    }
  }

  // --------------------------------------------------------------- agreement

  datatype Op =
    | Put(key: Bytes, value: Bytes)
    | Get(key: Bytes)
    | Delete(key: Bytes)
    | Scan(start: Bytes, end: Bytes)
    | Size
    | Clear

  datatype Answer = Flag(flag: bool) | Value(value: Option<Bytes>) | Result(pairs: Pairs) | Count(count: nat)

  /** What an operation does to the map, and the answer it owes. */
  ghost function Apply(m: Contents, op: Op): Contents {
    match op
    case Put(k, v) => m[k := v]
    case Delete(k) => m - {k}
    case Clear => map[]
    case _ => m
  }

  ghost function Owed(less: Order, m: Contents, op: Op): Answer
    requires StrictTotalOrder(less)
  {
    match op
    case Put(k, _) => Flag(k !in m)
    case Get(k) => Value(if k in m then Some(m[k]) else None)
    case Delete(k) => Flag(k in m)
    case Scan(start, end) => Result(Listing(less, Range(less, m, start, end)))
    case Size => Count(|m| % WORD)
    case Clear => Flag(true)
  }

  ghost function Final(m: Contents, ops: seq<Op>): Contents {
    if ops == [] then m else Apply(Final(m, ops[..|ops| - 1]), ops[|ops| - 1])
  }

  ghost function Answers(less: Order, m: Contents, ops: seq<Op>): seq<Answer>
    requires StrictTotalOrder(less)
  {
    if ops == [] then [] else
    var before := ops[..|ops| - 1];
    Answers(less, m, before) + [Owed(less, Final(m, before), ops[|ops| - 1])]
  }

  /** Every run of the skip list, whatever levels it draws, answers as the map does. */
  method RunSkipList(list: SkipList, ops: seq<Op>) returns (answers: seq<Answer>)
    requires list.Valid()
    modifies list, list.head, list.live
    ensures list.Valid() && list.Map() == Final(old(list.Map()), ops)
    ensures StrictTotalOrder(list.less) && answers == Answers(list.less, old(list.Map()), ops)
  {
    assert StrictTotalOrder(list.less);
    answers := [];
    for i := 0 to |ops|
      invariant list.Valid() && list.Map() == Final(old(list.Map()), ops[..i])
      invariant answers == Answers(list.less, old(list.Map()), ops[..i])
      invariant forall n :: n in list.live ==> n in old(list.live) || fresh(n)
    {
      assert ops[..i + 1][..i] == ops[..i];
      ghost var m := list.Map();
      var answer := DoSkipList(list, ops[i]);
      answers := answers + [answer];
    }
    assert ops[..|ops|] == ops;
  }

  method DoSkipList(list: SkipList, op: Op) returns (answer: Answer)
    requires list.Valid() && StrictTotalOrder(list.less)
    modifies list, list.head, list.live
    ensures list.Valid() && list.Map() == Apply(old(list.Map()), op)
    ensures answer == Owed(list.less, old(list.Map()), op)
    ensures forall n :: n in list.live ==> n in old(list.live) || fresh(n)
  {
    hide SkipList.Valid, SkipList.Map, Lists, Range;
    match op {
      case Put(k, v) =>
        var inserted := list.Put(k, v);
        answer := Flag(inserted);
      case Get(k) =>
        var found, value := list.Get(k);
        answer := Value(if found then Some(value) else None);
      case Delete(k) =>
        var deleted := list.Delete(k);
        answer := Flag(deleted);
      case Scan(start, end) =>
        var pairs := list.Scan(start, end);
        ListsUnique(list.less, Range(list.less, list.Map(), start, end), pairs,
                    Listing(list.less, Range(list.less, list.Map(), start, end)));
        answer := Result(pairs);
      case Size =>
        var count := list.Size();
        answer := Count(count);
      case Clear =>
        list.Clear();
        answer := Flag(true);
    }
  }

  method DoMapStore(store: MapStore, op: Op) returns (answer: Answer)
    requires StrictTotalOrder(store.less) && !op.Clear?
    modifies store
    ensures store.data == Apply(old(store.data), op)
    ensures |old(store.data)| < WORD ==> answer == Owed(store.less, old(store.data), op)
  {
    match op {
      case Put(k, v) =>
        var inserted := store.Put(k, v);
        answer := Flag(inserted);
      case Get(k) =>
        var found, value := store.Get(k);
        answer := Value(if found then Some(value) else None);
      case Delete(k) =>
        var deleted := store.Delete(k);
        answer := Flag(deleted);
      case Scan(start, end) =>
        var pairs := store.Scan(start, end);
        ListsUnique(store.less, Range(store.less, store.data, start, end), pairs,
                    Listing(store.less, Range(store.less, store.data, start, end)));
        answer := Result(pairs);
      case Size =>
        var count := store.Size();
        answer := Count(count);
    }
  }

  /** Every run of the ordered map answers as the map does, below 2^64 keys. */
  method RunMapStore(store: MapStore, ops: seq<Op>) returns (answers: seq<Answer>)
    requires StrictTotalOrder(store.less) && forall i :: 0 <= i < |ops| ==> !ops[i].Clear?
    requires |store.data| + |ops| < WORD
    modifies store
    ensures store.data == Final(old(store.data), ops)
    ensures answers == Answers(store.less, old(store.data), ops)
  {
    hide Owed, Apply, StrictTotalOrder;
    answers := [];
    for i := 0 to |ops|
      invariant store.data == Final(old(store.data), ops[..i])
      invariant answers == Answers(store.less, old(store.data), ops[..i])
      invariant |store.data| <= |old(store.data)| + i
    {
      assert ops[..i + 1][..i] == ops[..i];
      ghost var m := store.data;
      var answer := DoMapStore(store, ops[i]);
      ApplySize(m, ops[i]);
      answers := answers + [answer];
    }
    assert ops[..|ops|] == ops;
  }

  lemma OrderOf(list: SkipList)
    requires list.Valid()
    ensures StrictTotalOrder(list.less)
  {
  }

  /** Driven with the same operations from the same contents, the two stores give the same
      answers, as long as no more than 2^64 - 1 keys are present. */
  method RunBoth(list: SkipList, store: MapStore, ops: seq<Op>) returns (fromList: seq<Answer>, fromStore: seq<Answer>)
    requires list.Valid() && list.less == store.less && list.Map() == store.data
    requires forall i :: 0 <= i < |ops| ==> !ops[i].Clear?
    requires |store.data| + |ops| < WORD
    modifies list, list.head, list.live, store
    ensures list.Valid() && list.Map() == store.data == Final(old(store.data), ops)
    ensures fromList == fromStore
  {
    hide Final, Answers, StrictTotalOrder, SkipList.Valid, SkipList.Map;
    OrderOf(list);
    ghost var m, order := store.data, list.less;
    fromStore := RunMapStore(store, ops);
    assert fromStore == Answers(order, m, ops) && list.Valid() && list.Map() == m;
    fromList := RunSkipList(list, ops);
    assert store.data == Final(m, ops);
  }

  lemma ApplySize(m: Contents, op: Op)
    ensures |Apply(m, op)| <= |m| + 1
  {
    match op {
      case Put(k, v) => assert m[k := v].Keys == m.Keys + {k};
      case Delete(k) => assert (m - {k}).Keys == m.Keys - {k};
      case _ =>
    }
  }
}
