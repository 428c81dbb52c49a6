/**
 * What a call may conclude about the moments since its invocation.
 *
 * `past` lists every heap of the run so far. A lock-free traversal reads nodes
 * that may have been unlinked meanwhile, yet every node it meets was listed at
 * some moment of the call, and a gap it sees below and above its key existed at
 * some moment of the call.
 */
module SkipListHistory {
  import opened Bytes
  import opened SkipListMachine
  import opened SkipListHeap

  /** `n` was linked at the bottom level at some moment from `began` on. */
  ghost predicate SeenIn(past: seq<Heap>, began: nat, n: Addr) {
    exists i :: began <= i < |past| && InLevel(past[i], n, 0)
  }

  ghost predicate NoLiveKey(h: Heap, key: Bytes) { forall n :: Live(h, n) ==> h[n].key != key }

  /** The key was absent at some moment from `began` on. */
  ghost predicate AbsentIn(past: seq<Heap>, began: nat, key: Bytes) {
    exists i :: began <= i < |past| && NoLiveKey(past[i], key)
  }

  ghost predicate LivePair(h: Heap, key: Bytes, value: Bytes) {
    exists n :: Live(h, n) && h[n].key == key && h[n].value == value
  }

  /** The pair was in the map at some moment from `began` on. */
  ghost predicate PresentIn(past: seq<Heap>, began: nat, key: Bytes, value: Bytes) {
    exists i :: began <= i < |past| && LivePair(past[i], key, value)
  }

  /** Below `key` there is `n`, and the next pointer of `n` leads past `key`. */
  ghost predicate Gap(c: Config, h: Heap, n: Addr, key: Bytes) {
    && HasLevel(h, n, 0) && Before(c, h, n, key)
    && var f := h[n].forward[0];
       f == NULL || (f in h && c.less(key, h[f].key))
  }

  ghost predicate SeenReached(h: Heap, past: seq<Heap>, began: nat) {
    forall n :: SeenIn(past, began, n) ==> Reached(h, n, 0)
  }

  /** Following a pointer from a node seen during the call leads to one seen during the call. */
  ghost predicate SeenClosed(h: Heap, past: seq<Heap>, began: nat) {
    forall n, l: nat :: SeenIn(past, began, n) && HasLevel(h, n, l) && Reached(h, n, l) && h[n].forward[l] != NULL
                        ==> SeenIn(past, began, h[n].forward[l])
  }

  /** The gap left behind by an unlinked node was real at some moment of the call. */
  ghost predicate GapsAbsent(c: Config, h: Heap, past: seq<Heap>, began: nat, key: Bytes) {
    forall n :: SeenIn(past, began, n) && n in h && h[n].linked == 0 && Gap(c, h, n, key)
                ==> AbsentIn(past, began, key)
  }

  ghost predicate Hindsight(c: Config, h: Heap, past: seq<Heap>, began: nat, key: Bytes) {
    && began < |past| && past[|past| - 1] == h
    && SeenReached(h, past, began) && SeenClosed(h, past, began) && GapsAbsent(c, h, past, began, key)
  }

  lemma SeenNow(past: seq<Heap>, began: nat, n: Addr)
    requires began < |past| && InLevel(past[|past| - 1], n, 0)
    ensures SeenIn(past, began, n)
  {
  }

  lemma SeenLater(past: seq<Heap>, began: nat, h': Heap, n: Addr)
    ensures SeenIn(past, began, n) ==> SeenIn(past + [h'], began, n)
    ensures SeenIn(past + [h'], began, n) ==> SeenIn(past, began, n) || InLevel(h', n, 0)
  {
    var past' := past + [h'];
    if SeenIn(past, began, n) {
      var i :| began <= i < |past| && InLevel(past[i], n, 0);
      assert past'[i] == past[i];
    }
  }

  lemma AbsentLater(past: seq<Heap>, began: nat, h': Heap, key: Bytes)
    ensures AbsentIn(past, began, key) ==> AbsentIn(past + [h'], began, key)
  {
    var past' := past + [h'];
    if AbsentIn(past, began, key) {
      var i :| began <= i < |past| && NoLiveKey(past[i], key);
      assert past'[i] == past[i];
    }
  }

  lemma PresentLater(past: seq<Heap>, began: nat, h': Heap, key: Bytes, value: Bytes)
    ensures PresentIn(past, began, key, value) ==> PresentIn(past + [h'], began, key, value)
  {
    var past' := past + [h'];
    if PresentIn(past, began, key, value) {
      var i :| began <= i < |past| && LivePair(past[i], key, value);
      assert past'[i] == past[i];
    }
  }

  /** A listed node whose next pointer passes the key proves the key absent. */
  lemma GapMeansAbsent(c: Config, h: Heap, n: Addr, key: Bytes)
    requires ValidConfig(c) && HeapInv(c, h) && InLevel(h, n, 0) && Gap(c, h, n, key)
    ensures NoLiveKey(h, key)
  {
    hide HeapInv;
    HeadAt(c, h);
    forall m | Live(h, m) ensures h[m].key != key {
      NodeAt(c, h, m);
      NextAt(c, h, n, m, 0);
    }
  }

  /** Pointers of a node still listed at the bottom lead to listed nodes. */
  lemma ListedForward(c: Config, h: Heap, n: Addr, l: nat)
    requires HeapInv(c, h) && InLevel(h, n, 0) && HasLevel(h, n, l) && Reached(h, n, l) && h[n].forward[l] != NULL
    ensures InLevel(h, h[n].forward[l], 0)
  {
    hide HeapInv;
    EdgeAt(c, h, n, l);
  }

  /** Hindsight holds at the invocation of a call. */
  lemma HindsightBegins(c: Config, h: Heap, past: seq<Heap>, key: Bytes)
    requires HeapInv(c, h) && |past| > 0 && past[|past| - 1] == h
    ensures Hindsight(c, h, past, |past| - 1, key)
  {
    hide HeapInv;
    var began := |past| - 1;
    forall n | SeenIn(past, began, n) ensures InLevel(h, n, 0) && Reached(h, n, 0) {
      NodeAt(c, h, n);
    }
    forall n, l: nat | SeenIn(past, began, n) && HasLevel(h, n, l) && Reached(h, n, l) && h[n].forward[l] != NULL
      ensures SeenIn(past, began, h[n].forward[l])
    {
      ListedForward(c, h, n, l);
      SeenNow(past, began, h[n].forward[l]);
    }
  }

  /** Hindsight survives every step of every thread. */
  lemma HindsightKept(c: Config, h: Heap, h': Heap, past: seq<Heap>, began: nat, key: Bytes)
    requires ValidConfig(c) && HeapInv(c, h) && HeapInv(c, h') && Evolves(h, h') && Hindsight(c, h, past, began, key)
    ensures Hindsight(c, h', past + [h'], began, key)
  {
    hide HeapInv, SeenClosed, GapsAbsent;
    var past' := past + [h'];
    forall n | SeenIn(past', began, n) ensures Reached(h', n, 0) {
      SeenLater(past, began, h', n);
      if InLevel(h', n, 0) { NodeAt(c, h', n); }
    }
    assert SeenClosed(h', past', began) by { ClosedKept(c, h, h', past, began, key); }
    assert GapsAbsent(c, h', past', began, key) by { GapsKept(c, h, h', past, began, key); }
  }

  lemma ClosedKept(c: Config, h: Heap, h': Heap, past: seq<Heap>, began: nat, key: Bytes)
    requires HeapInv(c, h) && HeapInv(c, h') && Evolves(h, h') && Hindsight(c, h, past, began, key)
    ensures SeenClosed(h', past + [h'], began)
  {
    hide HeapInv;
    var past' := past + [h'];
    forall n, l: nat | SeenIn(past', began, n) && HasLevel(h', n, l) && Reached(h', n, l) && h'[n].forward[l] != NULL
      ensures SeenIn(past', began, h'[n].forward[l])
    {
      var f := h'[n].forward[l];
      SeenLater(past, began, h', n);
      SeenLater(past, began, h', f);
      if InLevel(h', n, 0) {
        ListedForward(c, h', n, l);
        SeenNow(past', began, f);
      } else {
        assert Reached(h, n, 0) && h[n].marked && HasLevel(h, n, l) && h[n].forward[l] == f;
        if InLevel(h, n, 0) {
          ListedForward(c, h, n, l);
          SeenNow(past, began, f);
        }
      }
    }
  }

  lemma GapsKept(c: Config, h: Heap, h': Heap, past: seq<Heap>, began: nat, key: Bytes)
    requires ValidConfig(c) && HeapInv(c, h) && HeapInv(c, h') && Evolves(h, h') && Hindsight(c, h, past, began, key)
    ensures GapsAbsent(c, h', past + [h'], began, key)
  {
    hide HeapInv;
    var past' := past + [h'];
    forall n | SeenIn(past', began, n) && n in h' && h'[n].linked == 0 && Gap(c, h', n, key)
      ensures AbsentIn(past', began, key)
    {
      SeenLater(past, began, h', n);
      AbsentLater(past, began, h', key);
      assert Reached(h, n, 0) && h[n].marked && HasLevel(h, n, 0) && h[n].forward[0] == h'[n].forward[0];
      EdgeAt(c, h, n, 0);
      assert Gap(c, h, n, key);
      if InLevel(h, n, 0) {
        GapMeansAbsent(c, h, n, key);
        assert NoLiveKey(past[|past| - 1], key);
      }
    }
  }
}
