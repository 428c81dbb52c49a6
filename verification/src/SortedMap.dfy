/** The ordered map that every store in the project must agree with. */
module SortedMap {
  import opened Bytes
  import opened Orders

  type Pairs = seq<(Bytes, Bytes)>
  type Contents = map<Bytes, Bytes>

  predicate Ascending(less: Order, pairs: Pairs) {
    forall i, j :: 0 <= i < j < |pairs| ==> less(pairs[i].0, pairs[j].0)
  }

  /** `pairs` lists the whole map in strictly ascending key order. */
  ghost predicate Lists(less: Order, m: Contents, pairs: Pairs) {
    && Ascending(less, pairs)
    && (forall i :: 0 <= i < |pairs| ==> pairs[i].0 in m && m[pairs[i].0] == pairs[i].1)
    && (forall k :: k in m ==> exists i :: 0 <= i < |pairs| && pairs[i].0 == k)
  }

  /** The part of the map with `start <= key <= end`. */
  function Range(less: Order, m: Contents, start: Bytes, end: Bytes): Contents {
    map k | k in m && !less(k, start) && !less(end, k) :: m[k]
  }

  /** A map has only one ordered listing. */
  lemma {:induction false} ListsUnique(less: Order, m: Contents, a: Pairs, b: Pairs)
    requires StrictTotalOrder(less) && Lists(less, m, a) && Lists(less, m, b)
    ensures a == b
  {
    if a != [] { NotEmpty(less, m, a); }
    if b != [] { NotEmpty(less, m, b); }
    if a != [] && b != [] {
      SameFirst(less, m, a, b);
      ListsTail(less, m, a);
      ListsTail(less, m, b);
      hide Lists;
      ListsUnique(less, m - {a[0].0}, a[1..], b[1..]);
      assert a == [a[0]] + a[1..] && b == [b[0]] + b[1..];
    }
  }

  lemma NotEmpty(less: Order, m: Contents, a: Pairs)
    requires Lists(less, m, a) && a != []
    ensures m != map[]
  {
    assert a[0].0 in m;
  }

  lemma SameFirst(less: Order, m: Contents, a: Pairs, b: Pairs)
    requires StrictTotalOrder(less) && Lists(less, m, a) && Lists(less, m, b) && a != [] && b != []
    ensures a[0] == b[0]
  {
    var j :| 0 <= j < |b| && b[j].0 == a[0].0;
    var i :| 0 <= i < |a| && a[i].0 == b[0].0;
    assert !less(a[i].0, a[0].0) && !less(b[j].0, b[0].0);
  }

  lemma ListsTail(less: Order, m: Contents, a: Pairs)
    requires StrictTotalOrder(less) && Lists(less, m, a) && a != []
    ensures Lists(less, m - {a[0].0}, a[1..])
  {
    var t := a[1..];
    forall i | 0 <= i < |t| ensures t[i].0 in m - {a[0].0} && m[t[i].0] == t[i].1 {
      assert t[i] == a[i + 1] && less(a[0].0, a[i + 1].0);
    }
    forall k | k in m - {a[0].0} ensures exists i :: 0 <= i < |t| && t[i].0 == k {
      var i :| 0 <= i < |a| && a[i].0 == k;
      assert t[i - 1].0 == k;
    }
  }

  lemma LeastKey(less: Order, keys: set<Bytes>) returns (least: Bytes)
    requires StrictTotalOrder(less) && keys != {}
    ensures least in keys && forall k :: k in keys ==> !less(k, least)
  {
    var x :| x in keys;
    if keys == {x} { return x; }
    assert keys == (keys - {x}) + {x};
    var rest := LeastKey(less, keys - {x});
    least := if less(x, rest) then x else rest;
    forall k | k in keys ensures !less(k, least) {
      if k != x { assert k in keys - {x}; }
    }
  }

  /** The ordered listing of a map. */
  ghost function Listing(less: Order, m: Contents): (pairs: Pairs)
    requires StrictTotalOrder(less)
    ensures Lists(less, m, pairs)
    decreases |m|
  {
    if m == map[] then [] else
    var least := Least(less, m);
    var rest := m - {least};
    assert |rest| < |m| by { assert m.Keys == rest.Keys + {least}; }
    ListsHead(less, m, least, Listing(less, rest));
    [(least, m[least])] + Listing(less, rest)
  }

  ghost function Least(less: Order, m: Contents): (least: Bytes)
    requires StrictTotalOrder(less) && m != map[]
    ensures least in m && forall k :: k in m ==> !less(k, least)
  {
    assert exists k :: k in m && forall j :: j in m ==> !less(j, k) by {
      assert m.Keys != {};
      var k := LeastKey(less, m.Keys);
    }
    var k :| k in m && forall j :: j in m ==> !less(j, k);
    k
  }

  lemma ListsHead(less: Order, m: Contents, least: Bytes, tail: Pairs)
    requires StrictTotalOrder(less) && least in m && (forall k :: k in m ==> !less(k, least))
    requires Lists(less, m - {least}, tail)
    ensures Lists(less, m, [(least, m[least])] + tail)
  {
    var all := [(least, m[least])] + tail;
    forall k | k in m ensures exists i :: 0 <= i < |all| && all[i].0 == k {
      if k == least {
        assert all[0].0 == k;
      } else {
        assert k in m - {least};
        var i :| 0 <= i < |tail| && tail[i].0 == k;
        assert all[i + 1].0 == k;
      }
    }
    forall i, j | 0 <= i < j < |all| ensures less(all[i].0, all[j].0) {
      assert all[j] == tail[j - 1];
      if i > 0 { assert all[i] == tail[i - 1]; }
    }
  }

  /** A pair above everything listed can be listed next. */
  lemma ListsAppend(less: Order, m: Contents, pairs: Pairs, key: Bytes, value: Bytes)
    requires Lists(less, m, pairs) && forall k :: k in m ==> k != key && less(k, key)
    ensures Lists(less, m[key := value], pairs + [(key, value)])
  {
    var all, m' := pairs + [(key, value)], m[key := value];
    forall k | k in m' ensures exists i :: 0 <= i < |all| && all[i].0 == k {
      if k == key {
        assert all[|pairs|].0 == k;
      } else {
        var i :| 0 <= i < |pairs| && pairs[i].0 == k;
        assert all[i].0 == k;
      }
    }
  }

  lemma ListsEmpty(less: Order)
    ensures Lists(less, map[], [])
  {
  }

  /** Adding a key inside the bounds adds it to the range. */
  lemma RangeExtends(less: Order, m: Contents, key: Bytes, value: Bytes, start: Bytes, end: Bytes)
    requires !less(key, start) && !less(end, key)
    ensures Range(less, m[key := value], start, end) == Range(less, m, start, end)[key := value]
  {
  }
}
