/** The byte format of the snapshot file. */
module SnapshotFormat {
  import opened Bytes
  import opened Orders
  import opened SortedMap

  const MAGIC: nat := 0x4b565353
  const VERSION: nat := 1
  const HEADER: nat := 16

  predicate PairOk(p: (Bytes, Bytes)) { |p.0| < TWO32 && |p.1| < TWO32 }

  predicate PairsOk(pairs: Pairs) { forall p :: p in pairs ==> PairOk(p) }

  function EncodePair(p: (Bytes, Bytes)): (e: Bytes)
    ensures |e| == 8 + |p.0| + |p.1|
  {
    Le32(|p.0| % TWO32) + Le32(|p.1| % TWO32) + p.0 + p.1
  }

  function EncodePairs(pairs: Pairs): Bytes {
    if pairs == [] then [] else EncodePair(pairs[0]) + EncodePairs(pairs[1..])
  }

  function EncodeHeader(count: nat): (h: Bytes)
    ensures |h| == HEADER
  {
    Le32(MAGIC) + Le32(VERSION) + Le64(count % TWO64)
  }

  /** What WriteSnapshotFile writes. */
  function EncodeSnapshot(pairs: Pairs): Bytes {
    EncodeHeader(|pairs|) + EncodePairs(pairs)
  }

  datatype LoadError = ShortHeader | InvalidHeader | ShortRecord | ShortPayload

  datatype Loaded = Loaded(pairs: Pairs) | LoadFailed(error: LoadError)

  /** What LoadSnapshotFile reads from the stream behind the header. */
  function LoadPairs(bs: Bytes, count: nat): Loaded {
    if count == 0 then Loaded([])
    else if |bs| < 8 then LoadFailed(ShortRecord)
    else
      var keySize, valueSize := FromLe32(bs[..4]), FromLe32(bs[4..8]);
      if |bs| < 8 + keySize + valueSize then LoadFailed(ShortPayload)
      else
        match LoadPairs(bs[8 + keySize + valueSize..], count - 1)
        case Loaded(pairs) => Loaded([(bs[8..8 + keySize], bs[8 + keySize..8 + keySize + valueSize])] + pairs)
        case LoadFailed(e) => LoadFailed(e)
  }

  function LoadSnapshot(bs: Bytes): Loaded {
    if |bs| < HEADER then LoadFailed(ShortHeader)
    else if FromLe32(bs[..4]) != MAGIC || FromLe32(bs[4..8]) != VERSION then LoadFailed(InvalidHeader)
    else LoadPairs(bs[HEADER..], FromLe64(bs[8..HEADER]))
  }

  lemma PairSlices(p: (Bytes, Bytes), rest: Bytes)
    requires PairOk(p)
    ensures var bs := EncodePair(p) + rest;
            && FromLe32(bs[..4]) == |p.0| && FromLe32(bs[4..8]) == |p.1|
            && bs[8..8 + |p.0|] == p.0 && bs[8 + |p.0|..8 + |p.0| + |p.1|] == p.1
            && bs[8 + |p.0| + |p.1|..] == rest
  {
    hide FromLe32, Le32;
    Le32RoundTrip(|p.0|);
    Le32RoundTrip(|p.1|);
    var sizes := Le32(|p.0|) + Le32(|p.1|);
    var bs := EncodePair(p) + rest;
    assert bs == sizes + p.0 + p.1 + rest;
    assert bs[..4] == Le32(|p.0|) && bs[4..8] == Le32(|p.1|);
    SplitPayload(sizes, p.0, p.1, rest);
  }

  lemma SplitPayload(sizes: Bytes, key: Bytes, value: Bytes, rest: Bytes)
    ensures var n, bs := |sizes|, sizes + key + value + rest;
            && bs[n..n + |key|] == key && bs[n + |key|..n + |key| + |value|] == value
            && bs[n + |key| + |value|..] == rest
  {
  }

  /** Loading passes an encoded pair and goes on with what follows. */
  lemma LoadPast(p: (Bytes, Bytes), rest: Bytes, count: nat)
    requires PairOk(p) && count > 0
    ensures LoadPairs(EncodePair(p) + rest, count) ==
            match LoadPairs(rest, count - 1)
            case Loaded(pairs) => Loaded([p] + pairs)
            case LoadFailed(e) => LoadFailed(e)
  {
    PairSlices(p, rest);
    hide EncodePair, FromLe32;
  }

  lemma {:induction false} PairsRoundTrip(pairs: Pairs, rest: Bytes)
    requires PairsOk(pairs)
    ensures LoadPairs(EncodePairs(pairs) + rest, |pairs|) == Loaded(pairs)
    decreases |pairs|
  {
    hide EncodePair;
    if pairs != [] {
      var first, others := EncodePair(pairs[0]), EncodePairs(pairs[1..]);
      assert EncodePairs(pairs) + rest == first + (others + rest);
      hide LoadPairs, EncodePairs;
      LoadPast(pairs[0], others + rest, |pairs|);
      PairsRoundTrip(pairs[1..], rest);
      assert pairs == [pairs[0]] + pairs[1..];
    }
  }

  /** Loading a written snapshot yields exactly the pairs written; later bytes are ignored. */
  lemma SnapshotRoundTrip(pairs: Pairs, rest: Bytes)
    requires PairsOk(pairs) && |pairs| < TWO64
    ensures LoadSnapshot(EncodeSnapshot(pairs) + rest) == Loaded(pairs)
  {
    hide FromLe32, Le32, FromLe64, Le64, LoadPairs, EncodePairs;
    var bs := EncodeSnapshot(pairs) + rest;
    assert bs[..4] == Le32(MAGIC) && bs[4..8] == Le32(VERSION) && bs[8..HEADER] == Le64(|pairs|);
    assert bs[HEADER..] == EncodePairs(pairs) + rest;
    Le32RoundTrip(MAGIC);
    Le32RoundTrip(VERSION);
    Le64RoundTrip(|pairs|);
    PairsRoundTrip(pairs, rest);
  }

  lemma PairCut(p: (Bytes, Bytes), n: nat, count: nat)
    requires PairOk(p) && count > 0 && n < |EncodePair(p)|
    ensures LoadPairs(EncodePair(p)[..n], count).LoadFailed?
  {
    PairSlices(p, []);
    var first := EncodePair(p);
    assert first + [] == first;
    hide EncodePair, FromLe32;
    if n >= 8 { assert first[..n][..4] == first[..4] && first[..n][4..8] == first[4..8]; }
  }

  lemma CutWhere(first: Bytes, others: Bytes, n: nat)
    requires n < |first + others|
    ensures (first + others)[..n] == if n < |first| then first[..n] else first + others[..n - |first|]
  {
  }

  lemma {:induction false} PairsCut(pairs: Pairs, n: nat)
    requires PairsOk(pairs) && n < |EncodePairs(pairs)|
    ensures LoadPairs(EncodePairs(pairs)[..n], |pairs|).LoadFailed?
    decreases |pairs|
  {
    hide EncodePair;
    var first, others := EncodePair(pairs[0]), EncodePairs(pairs[1..]);
    var bs := EncodePairs(pairs)[..n];
    assert EncodePairs(pairs) == first + others;
    hide EncodePairs, LoadPairs;
    CutWhere(first, others, n);
    if n < |first| {
      PairCut(pairs[0], n, |pairs|);
    } else {
      LoadPast(pairs[0], others[..n - |first|], |pairs|);
      PairsCut(pairs[1..], n - |first|);
    }
  }

  /** A snapshot cut short anywhere does not load: its header announces every pair. */
  lemma SnapshotCut(pairs: Pairs, n: nat)
    requires PairsOk(pairs) && |pairs| < TWO64 && n < |EncodeSnapshot(pairs)|
    ensures LoadSnapshot(EncodeSnapshot(pairs)[..n]).LoadFailed?
  {
    hide FromLe32, Le32, FromLe64, Le64, LoadPairs, EncodePairs;
    var bs := EncodeSnapshot(pairs)[..n];
    if n >= HEADER {
      assert bs == EncodeHeader(|pairs|) + EncodePairs(pairs)[..n - HEADER];
      assert bs[8..HEADER] == EncodeHeader(|pairs|)[8..] == Le64(|pairs|);
      assert bs[HEADER..] == EncodePairs(pairs)[..n - HEADER];
      Le64RoundTrip(|pairs|);
      PairsCut(pairs, n - HEADER);
    }
  }

  /** A loaded pair and the bytes behind it are what the stream holds. */
  lemma PairIs(bs: Bytes)
    requires |bs| >= 8 && |bs| >= 8 + FromLe32(bs[..4]) + FromLe32(bs[4..8])
    ensures var keySize, valueSize := FromLe32(bs[..4]), FromLe32(bs[4..8]);
            var p := (bs[8..8 + keySize], bs[8 + keySize..8 + keySize + valueSize]);
            PairOk(p) && bs == EncodePair(p) + bs[8 + keySize + valueSize..]
  {
    FromLe32Injective(bs[..4]);
    FromLe32Injective(bs[4..8]);
    hide FromLe32, Le32, EncodePair;
    var keySize, valueSize := FromLe32(bs[..4]), FromLe32(bs[4..8]);
    EncodedPair((bs[8..8 + keySize], bs[8 + keySize..8 + keySize + valueSize]));
    SplitPair(bs, keySize, valueSize);
  }

  lemma EncodedPair(p: (Bytes, Bytes))
    requires PairOk(p)
    ensures EncodePair(p) == Le32(|p.0|) + Le32(|p.1|) + p.0 + p.1
  {
    hide Le32;
  }

  lemma SplitPair(bs: Bytes, keySize: nat, valueSize: nat)
    requires |bs| >= 8 + keySize + valueSize
    ensures bs == bs[..4] + bs[4..8] + bs[8..8 + keySize] + bs[8 + keySize..8 + keySize + valueSize]
                  + bs[8 + keySize + valueSize..]
  {
  }

  lemma {:induction false} PairsSound(bs: Bytes, count: nat, pairs: Pairs)
    requires LoadPairs(bs, count) == Loaded(pairs)
    ensures |pairs| == count && PairsOk(pairs) && EncodePairs(pairs) <= bs
    decreases count
  {
    if count > 0 {
      PairIs(bs);
      hide EncodePair, FromLe32;
      var keySize, valueSize := FromLe32(bs[..4]), FromLe32(bs[4..8]);
      var first := (bs[8..8 + keySize], bs[8 + keySize..8 + keySize + valueSize]);
      var rest := bs[8 + keySize + valueSize..];
      var others := LoadPairs(rest, count - 1).pairs;
      assert pairs == [first] + others;
      PairsSound(rest, count - 1, others);
      assert pairs[0] == first && pairs[1..] == others;
      assert EncodePair(first) + EncodePairs(others) <= EncodePair(first) + rest;
    }
  }

  /** A file loads if and only if it starts with a written snapshot, and then as the pairs written. */
  lemma LoadExact(bs: Bytes, pairs: Pairs)
    ensures LoadSnapshot(bs) == Loaded(pairs) <==>
            PairsOk(pairs) && |pairs| < TWO64 && EncodeSnapshot(pairs) <= bs
  {
    hide FromLe32, Le32, FromLe64, Le64, LoadPairs, EncodePairs;
    if LoadSnapshot(bs) == Loaded(pairs) {
      FromLe32Injective(bs[..4]);
      FromLe32Injective(bs[4..8]);
      FromLe64Injective(bs[8..HEADER]);
      PairsSound(bs[HEADER..], FromLe64(bs[8..HEADER]), pairs);
      assert bs == bs[..4] + bs[4..8] + bs[8..HEADER] + bs[HEADER..];
    }
    if PairsOk(pairs) && |pairs| < TWO64 && EncodeSnapshot(pairs) <= bs {
      var whole := EncodeSnapshot(pairs);
      SnapshotRoundTrip(pairs, bs[|whole|..]);
      assert bs == whole + bs[|whole|..];
    }
  }

  /** A file whose first eight bytes are not the magic number and the version is refused. */
  lemma HeaderIs(bs: Bytes)
    requires LoadSnapshot(bs).Loaded?
    ensures |bs| >= 16 && bs[..8] == [0x53, 0x53, 0x56, 0x4b, 1, 0, 0, 0]
  {
    FromLe32Injective(bs[..4]);
    FromLe32Injective(bs[4..8]);
    assert Le32(MAGIC) == [0x53, 0x53, 0x56, 0x4b] && Le32(VERSION) == [1, 0, 0, 0];
    hide FromLe32, Le32;
    assert bs[..8] == bs[..4] + bs[4..8];
  }

  // ---------------------------------------------------- rebuilding the index

  /** index->Put for each pair in turn. */
  function PutAll(m: Contents, pairs: Pairs): Contents
    decreases |pairs|
  {
    if pairs == [] then m else PutAll(m[pairs[0].0 := pairs[0].1], pairs[1..])
  }

  lemma {:induction false} PutAllKeys(m: Contents, pairs: Pairs, k: Bytes)
    requires forall i :: 0 <= i < |pairs| ==> pairs[i].0 != k
    ensures (k in PutAll(m, pairs) <==> k in m) && (k in m ==> PutAll(m, pairs)[k] == m[k])
    decreases |pairs|
  {
    if pairs != [] { PutAllKeys(m[pairs[0].0 := pairs[0].1], pairs[1..], k); }
  }

  lemma {:induction false} PutAllDistinct(m: Contents, pairs: Pairs, i: nat)
    requires i < |pairs| && forall j :: i < j < |pairs| ==> pairs[j].0 != pairs[i].0
    ensures pairs[i].0 in PutAll(m, pairs) && PutAll(m, pairs)[pairs[i].0] == pairs[i].1
    decreases |pairs|
  {
    var m' := m[pairs[0].0 := pairs[0].1];
    if i == 0 {
      PutAllKeys(m', pairs[1..], pairs[0].0);
    } else {
      PutAllDistinct(m', pairs[1..], i - 1);
    }
  }

  /** Putting an ordered listing into an empty index rebuilds the map it lists. */
  lemma ListingRebuilds(less: Order, m: Contents, pairs: Pairs)
    requires StrictTotalOrder(less) && Lists(less, m, pairs)
    ensures PutAll(map[], pairs) == m
  {
    forall k ensures (k in PutAll(map[], pairs) <==> k in m) && (k in m ==> PutAll(map[], pairs)[k] == m[k]) {
      if k in m {
        var i :| 0 <= i < |pairs| && pairs[i].0 == k;
        forall j | i < j < |pairs| ensures pairs[j].0 != pairs[i].0 {
          assert less(pairs[i].0, pairs[j].0);
        }
        PutAllDistinct(map[], pairs, i);
      } else {
        PutAllKeys(map[], pairs, k);
      }
    }
  }
}
