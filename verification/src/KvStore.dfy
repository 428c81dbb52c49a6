/** The store: the index in memory, its log, its snapshot, and how they survive a crash. */
module KvStores {
  import opened Wrappers
  import opened Bytes
  import opened Orders
  import opened SortedMap
  import opened SkipListIndex
  import opened WalFormat
  import opened WalFile
  import opened SnapshotFormat
  import opened Recovery

  const DEFAULT_LEVELS: nat := 16

  /** The log is a sequence of whole, valid records. */
  predicate LogIntact(log: Bytes) { WalFormat.Replay(log).Replayed? && WalFormat.Replay(log).skipped == 0 }

  // ------------------------------------------------------------ crash points

  /** A crash after `k` bytes of a record have reached an intact log. */
  lemma AppendCrash(d: Disk, m: Contents, e: Entry, k: nat)
    requires Recover(d) == Store(m) && LogIntact(d.log) && EntryOk(e) && k <= |EncodeEntry(e)|
    ensures var d' := d.(log := d.log + EncodeEntry(e)[..k]);
            Recover(d') == Store(if k < |EncodeEntry(e)| then m else ApplyRecord(m, e.record))
    ensures LogIntact(d.log + EncodeEntry(e))
  {
    hide EncodeEntry, LoadSnapshot, PutAll, ApplyRecord;
    var es := ReplayAccounts(d.log);
    assert d.log == EncodeAll(es);
    AppendWhole(d.log, es, e);
    var d' := d.(log := d.log + EncodeEntry(e)[..k]);
    var pairs := Base(d).pairs;
    if k < |EncodeEntry(e)| {
      RecoverLog(d', pairs, es, e, k);
    } else {
      assert EncodeEntry(e)[..k] == EncodeEntry(e);
      ApplyConcat(PutAll(map[], pairs), Records(es), [e.record]);
      assert [e.record][1..] == [];
    }
  }

  /** A whole record behind an intact log is one more record to replay. */
  lemma AppendWhole(log: Bytes, es: seq<Entry>, e: Entry)
    requires EntriesOk(es) && EntryOk(e) && log == EncodeAll(es)
    ensures WalFormat.Replay(log + EncodeEntry(e)) == Replayed(Records(es) + [e.record], 0)
  {
    hide EncodeEntry, ParseRecord;
    ReplayThrough(es, EncodeEntry(e));
    ParseEntry(e, []);
    ParseEmpty();
    assert EncodeEntry(e) + [] == EncodeEntry(e) && EncodeEntry(e)[|EncodeEntry(e)|..] == [];
    assert Records(es) + ([e.record] + []) == Records(es) + [e.record];
  }

  /** A whole snapshot over an empty log recovers to the map it lists. */
  lemma AfterReset(m: Contents, pairs: Pairs)
    requires Lists(LexLess, m, pairs) && PairsOk(pairs) && |pairs| < TWO64
    ensures Base(Disk(Some(EncodeSnapshot(pairs)), None, [])) == Loaded(pairs) && PutAll(map[], pairs) == m
    ensures Recover(Disk(Some(EncodeSnapshot(pairs)), None, [])) == Store(m) && LogIntact([])
  {
    hide LoadSnapshot, EncodeSnapshot, PutAll, Lists, ParseRecord, ApplyRecords;
    SnapshotRoundTrip(pairs, []);
    assert EncodeSnapshot(pairs) + [] == EncodeSnapshot(pairs);
    LexOrder();
    ListingRebuilds(LexLess, m, pairs);
    ParseEmpty();
    assert ApplyRecords(m, []) == m by { ApplyNone(m); }
  }

  /** A crash between renaming the snapshot and resetting the log: the records of the
      old log are already in the snapshot and do no harm. */
  lemma CheckpointCrash(d: Disk, m: Contents, pairs: Pairs)
    requires Recover(d) == Store(m) && Lists(LexLess, m, pairs) && PairsOk(pairs) && |pairs| < TWO64
    ensures Recover(Disk(Some(EncodeSnapshot(pairs)), None, d.log)) == Store(m)
    ensures Recover(Disk(Some(EncodeSnapshot(pairs)), None, [])) == Store(m) && LogIntact([])
  {
    AfterReset(m, pairs);
    hide LoadSnapshot, EncodeSnapshot, PutAll, Lists, WalFormat.Replay, ApplyRecords;
    ReplayIdempotent(PutAll(map[], Base(d).pairs), WalFormat.Replay(d.log).applied);
  }

  /** A snapshot put in place short makes every later start throw, whatever the log holds. */
  lemma ShortSnapshot(pairs: Pairs, n: nat, log: Bytes)
    requires PairsOk(pairs) && |pairs| < TWO64 && n < |EncodeSnapshot(pairs)|
    ensures Recover(Disk(Some(EncodeSnapshot(pairs)[..n]), None, log)).SnapshotUnreadable?
  {
    hide LoadSnapshot, EncodeSnapshot, WalFormat.Replay;
    SnapshotCut(pairs, n);
  }

  lemma ApplyNone(m: Contents)
    ensures ApplyRecords(m, []) == m
  {
  }

  lemma {:induction false} EncodePairsSnoc(pairs: Pairs, p: (Bytes, Bytes))
    ensures EncodePairs(pairs + [p]) == EncodePairs(pairs) + EncodePair(p)
    decreases |pairs|
  {
    hide EncodePair;
    if pairs == [] {
      assert EncodePairs([p]) == EncodePair(p) + EncodePairs([p][1..]);
    } else {
      assert (pairs + [p])[1..] == pairs[1..] + [p];
      EncodePairsSnoc(pairs[1..], p);
    }
  }

  lemma {:induction false} PutAllSnoc(m: Contents, pairs: Pairs, p: (Bytes, Bytes))
    ensures PutAll(m, pairs + [p]) == PutAll(m, pairs)[p.0 := p.1]
    decreases |pairs|
  {
    if pairs != [] {
      assert (pairs + [p])[1..] == pairs[1..] + [p];
      PutAllSnoc(m[pairs[0].0 := pairs[0].1], pairs[1..], p);
    }
  }

  // ------------------------------------------------------------ snapshot file

  function PrependPairs(pairs: Pairs, l: Loaded): Loaded {
    if l.Loaded? then Loaded(pairs + l.pairs) else l
  }

  /** The loop of LoadSnapshotFile, which puts each pair into the index as it reads it. */
  method LoadSnapshotFile(data: Bytes, index: SkipList) returns (error: Option<LoadError>)
    requires index.Valid()
    modifies index, index.head, index.live
    ensures index.Valid() && forall n :: n in index.live ==> n in old(index.live) || fresh(n)
    ensures error == match LoadSnapshot(data) case Loaded(_) => None case LoadFailed(e) => Some(e)
    ensures error == None ==> index.Map() == PutAll(old(index.Map()), LoadSnapshot(data).pairs)
  {
    hide SkipList.Valid, SkipList.Map, FromLe32, FromLe64, LoadPairs, PutAll;
    error := None;
    if |data| < SnapshotFormat.HEADER { return Some(ShortHeader); }
    if FromLe32(data[..4]) != SnapshotFormat.MAGIC || FromLe32(data[4..8]) != VERSION { return Some(InvalidHeader); }
    var count, position, recordIndex := FromLe64(data[8..SnapshotFormat.HEADER]), SnapshotFormat.HEADER, 0;
    ghost var loaded: Pairs := [];
    ghost var all := LoadSnapshot(data);
    assert all == PrependPairs([], LoadPairs(data[position..], count));
    hide LoadSnapshot;
    assert PutAll(old(index.Map()), []) == old(index.Map()) by { NothingPut(old(index.Map())); }
    while recordIndex < count
      invariant index.Valid() && forall n :: n in index.live ==> n in old(index.live) || fresh(n)
      invariant recordIndex <= count && position <= |data|
      invariant all == PrependPairs(loaded, LoadPairs(data[position..], count - recordIndex))
      invariant index.Map() == PutAll(old(index.Map()), loaded)
    {
      ghost var rest := data[position..];
      LoadOne(rest, loaded, count - recordIndex);
      if |data| - position < 8 { return Some(ShortRecord); }
      assert rest[..4] == data[position..position + 4] && rest[4..8] == data[position + 4..position + 8];
      var keySize, valueSize := FromLe32(data[position..position + 4]), FromLe32(data[position + 4..position + 8]);
      position := position + 8;
      if |data| - position < keySize + valueSize { return Some(ShortPayload); }
      var key, value := data[position..position + keySize], data[position + keySize..position + keySize + valueSize];
      position := position + keySize + valueSize;
      assert key == rest[8..8 + keySize] && value == rest[8 + keySize..8 + keySize + valueSize];
      assert data[position..] == rest[8 + keySize + valueSize..];
      PutAllSnoc(old(index.Map()), loaded, (key, value));
      loaded := loaded + [(key, value)];
      var _ := index.Put(key, value);
      recordIndex := recordIndex + 1;
    }
    assert all == Loaded(loaded) by { LoadEnd(loaded, data[position..]); }
  }

  lemma NothingPut(m: Contents)
    ensures PutAll(m, []) == m
  {
  }

  lemma LoadEnd(loaded: Pairs, bs: Bytes)
    ensures PrependPairs(loaded, LoadPairs(bs, 0)) == Loaded(loaded)
  {
    assert loaded + [] == loaded;
  }

  /** One turn of the load loop: it throws, or one more pair is loaded. */
  lemma LoadOne(bs: Bytes, before: Pairs, count: nat)
    requires count > 0
    ensures |bs| < 8 ==> LoadPairs(bs, count) == LoadFailed(ShortRecord)
    ensures |bs| >= 8 ==>
      var keySize, valueSize := FromLe32(bs[..4]), FromLe32(bs[4..8]);
      if |bs| < 8 + keySize + valueSize then LoadPairs(bs, count) == LoadFailed(ShortPayload)
      else
        var p := (bs[8..8 + keySize], bs[8 + keySize..8 + keySize + valueSize]);
        PrependPairs(before, LoadPairs(bs, count))
          == PrependPairs(before + [p], LoadPairs(bs[8 + keySize + valueSize..], count - 1))
  {
    hide FromLe32;
    if |bs| >= 8 {
      var keySize, valueSize := FromLe32(bs[..4]), FromLe32(bs[4..8]);
      if |bs| >= 8 + keySize + valueSize {
        var p := (bs[8..8 + keySize], bs[8 + keySize..8 + keySize + valueSize]);
        var l := LoadPairs(bs[8 + keySize + valueSize..], count - 1);
        if l.Loaded? { assert before + ([p] + l.pairs) == (before + [p]) + l.pairs; }
      }
    }
  }

  // ---------------------------------------------------------------- the store

  datatype CheckpointResult = Done | Unavailable | Failed

  /** What the disk answers during a checkpoint: to opening the temporary file, to the writes
      that the stream has passed on before its state is read, to the last write, in close, to
      the renaming and to the reset of the log. */
  datatype DiskAnswers = DiskAnswers(canOpen: bool, canWrite: bool, canClose: bool, canRename: bool, canReset: bool)

  /** The checkpoint notices a failure: all but that of the last write. */
  predicate Noticed(disk: DiskAnswers) { !disk.canOpen || !disk.canWrite || !disk.canRename || !disk.canReset }

  function CheckpointOutcome(walEnabled: bool, disk: DiskAnswers): CheckpointResult {
    if !walEnabled then Unavailable else if Noticed(disk) then Failed else Done
  }

  datatype Started = Running(store: KVStore) | SnapshotError(load: LoadError) | LogError(replay: ReplayError)

  class KVStore {
    const walEnabled: bool
    const index: SkipList
    const log: File
    var snapshot: Option<Bytes>
    var temp: Option<Bytes>
    ghost var trace: seq<Disk>   // every state the files have had: the points at which a crash can cut a run

    ghost predicate Valid()
      reads this, index, index.head, index.live
    {
      index.Valid() && index.less == LexLess
    }

    ghost function Map(): Contents
      requires Valid()
      reads this, index, index.head, index.live
    {
      index.Map()
    }

    function Files(): Disk
      reads this, log
    {
      Disk(snapshot, temp, log.data)
    }

    /** A restart would bring back the map. */
    ghost predicate Recoverable()
      requires Valid()
      reads this, index, index.head, index.live, log
    {
      Recover(Files()) == Store(Map())
    }

    constructor (walEnabled: bool, files: Disk, interrupts: nat)
      ensures Valid() && Map() == map[] && Files() == files && trace == [files]
      ensures this.walEnabled == walEnabled && fresh(index) && fresh(index.head) && index.live == {} && fresh(log)
      ensures log.position == 0
    {
      LexOrder();
      this.walEnabled := walEnabled;
      this.index := new SkipList(LexLess, DEFAULT_LEVELS);
      this.log := new File(files.log, interrupts);
      this.snapshot, this.temp, this.trace := files.snapshot, files.temp, [files];
    }

    /** Opening a store: load the snapshot, then replay the log; either may throw. */
    static method Open(walEnabled: bool, files: Disk, interrupts: nat) returns (r: Started)
      ensures !walEnabled ==> r.Running? && r.store.Valid() && r.store.Map() == map[]
      ensures walEnabled ==>
        match Recover(files)
        case Store(m) => r.Running? && r.store.Valid() && r.store.Map() == m && r.store.Recoverable()
        case SnapshotUnreadable(e) => r == SnapshotError(e)
        case LogUnreadable(e) => r == LogError(e)
      ensures r.Running? ==> fresh(r.store) && r.store.Files() == files && r.store.walEnabled == walEnabled
    {
      hide SkipList.Valid, SkipList.Map, WalFormat.Replay, LoadSnapshot, PutAll;
      var store := new KVStore(walEnabled, files, interrupts);
      if !walEnabled { return Running(store); }
      ghost var pairs := [];
      PutAllNone();
      if files.snapshot.Some? {
        var error := LoadSnapshotFile(files.snapshot.value, store.index);
        if error.Some? { return SnapshotError(error.value); }
        pairs := LoadSnapshot(files.snapshot.value).pairs;
      }
      var outcome := ReplayFile(store.log);
      if outcome.Refused? { return LogError(outcome.error); }
      ApplyLog(store.index, outcome.applied);
      r := Running(store);
    }

    static lemma PutAllNone()
      ensures PutAll(map[], []) == map[]
    {
    }

    /** What the replay callback does to the index, record by record. */
    static method ApplyLog(index: SkipList, records: seq<LogRecord>)
      requires index.Valid()
      modifies index, index.head, index.live
      ensures index.Valid() && index.Map() == ApplyRecords(old(index.Map()), records)
      ensures forall n :: n in index.live ==> n in old(index.live) || fresh(n)
    {
      hide SkipList.Valid, SkipList.Map;
      for i := 0 to |records|
        invariant index.Valid() && index.Map() == ApplyRecords(old(index.Map()), records[..i])
        invariant forall n :: n in index.live ==> n in old(index.live) || fresh(n)
      {
        var record := records[i];
        assert records[..i + 1] == records[..i] + [record];
        ApplyConcat(old(index.Map()), records[..i], [record]);
        assert [record][1..] == [];
        if record.kind.PutRecord? {
          var _ := index.Put(record.key, record.value);
        } else {
          var _ := index.Delete(record.key);
        }
      }
      assert records[..|records|] == records;
    }

    /** The log is written before the index: AppendPut or AppendDelete. */
    method AppendRecord(record: LogRecord, pad: Bytes)
      requires Valid() && |pad| == 3
      modifies this`trace, log
      ensures snapshot == old(snapshot) && temp == old(temp) && log.data == old(log.data) + Encode(record, pad)
      ensures old(trace) <= trace
      ensures old(Recoverable()) && LogIntact(old(log.data)) && Encodable(record) ==>
                && LogIntact(log.data) && Recover(Files()) == Store(ApplyRecord(Map(), record))
                && forall i :: |old(trace)| <= i < |trace| ==>
                     Recover(trace[i]) in {Store(Map()), Store(ApplyRecord(Map(), record))}
    {
      hide SkipList.Valid, SkipList.Map, Encode, LogIntact, Recover, ApplyRecord;
      WalFile.Append(log, record, pad);
      ghost var files, states := Files(), log.states[|old(log.states)|..];
      trace := trace + seq(|states|, i requires 0 <= i < |states| => files.(log := states[i]));
      if old(Recoverable()) && LogIntact(old(log.data)) && Encodable(record) {
        var e := Entry(record, pad);
        AppendCrash(old(Files()), Map(), e, |EncodeEntry(e)|);
        assert EncodeEntry(e)[..|EncodeEntry(e)|] == EncodeEntry(e);
        forall i | |old(trace)| <= i < |trace|
          ensures Recover(trace[i]) in {Store(Map()), Store(ApplyRecord(Map(), record))}
        {
          var state := states[i - |old(trace)|];
          assert state == log.states[|old(log.states)| + (i - |old(trace)|)];
          var k :| 0 <= k <= |EncodeEntry(e)| && state == old(log.data) + EncodeEntry(e)[..k];
          AppendCrash(old(Files()), Map(), e, k);
          assert trace[i] == old(Files()).(log := state);
        }
      }
    }

    /** Put. Cut by a crash at any of the points in `trace`, recovery yields the map before or after. */
    method Put(key: Bytes, value: Bytes, pad: Bytes) returns (inserted: bool)
      requires Valid() && |pad| == 3
      modifies this`trace, index, index.head, index.live, log
      ensures Valid() && Map() == old(Map())[key := value] && inserted == (key !in old(Map()))
      ensures forall n :: n in index.live ==> n in old(index.live) || fresh(n)
      ensures !walEnabled ==> Files() == old(Files()) && trace == old(trace)
      ensures old(trace) <= trace
      ensures walEnabled && old(Recoverable()) && LogIntact(old(log.data)) && |key| < TWO32 && |value| < TWO32 ==>
                && Recoverable() && LogIntact(log.data)
                && forall i :: |old(trace)| <= i < |trace| ==> Recover(trace[i]) in {Store(old(Map())), Store(Map())}
    {
      hide SkipList.Valid, SkipList.Map, LogIntact, Recover, Encode;
      if walEnabled {
        AppendRecord(LogRecord(PutRecord, key, value), pad);
      }
      inserted := index.Put(key, value);
    }

    /** Delete. Its crash points are those of Put. */
    method Delete(key: Bytes, pad: Bytes) returns (deleted: bool)
      requires Valid() && |pad| == 3
      modifies this`trace, index, index.head, index.live, log
      ensures Valid() && Map() == old(Map()) - {key} && deleted == (key in old(Map()))
      ensures forall n :: n in index.live ==> n in old(index.live) || fresh(n)
      ensures !walEnabled ==> Files() == old(Files()) && trace == old(trace)
      ensures old(trace) <= trace
      ensures walEnabled && old(Recoverable()) && LogIntact(old(log.data)) && |key| < TWO32 ==>
                && Recoverable() && LogIntact(log.data)
                && forall i :: |old(trace)| <= i < |trace| ==> Recover(trace[i]) in {Store(old(Map())), Store(Map())}
    {
      hide SkipList.Valid, SkipList.Map, LogIntact, Recover, Encode;
      if walEnabled {
        AppendRecord(LogRecord(DeleteRecord, key, []), pad);
      }
      deleted := index.Delete(key);
    }

    method Get(key: Bytes) returns (found: bool, value: Bytes)
      requires Valid()
      ensures found == (key in Map()) && (found ==> value == Map()[key])
    {
      found, value := index.Get(key);
    }

    method Scan(start: Bytes, end: Bytes) returns (result: Pairs)
      requires Valid()
      ensures Lists(LexLess, Range(LexLess, Map(), start, end), result)
    {
      result := index.Scan(start, end);
    }

    /**
     * WriteSnapshotFile: all pairs into the temporary file, then rename. An error that has
     * shown by the time the state of the stream is read, or in rename, unlinks the temporary file and
     * throws. What the stream still buffers is written by close, whose result is ignored:
     * `kept` bytes of the encoding are in the file that is renamed.
     */
    method WriteSnapshotFile(pairs: Pairs, disk: DiskAnswers) returns (ok: bool, ghost kept: nat)
      modifies this`snapshot, this`temp, this`trace
      ensures ok <==> disk.canOpen && disk.canWrite && disk.canRename
      ensures kept <= |EncodeSnapshot(pairs)| && (disk.canClose ==> kept == |EncodeSnapshot(pairs)|)
      ensures ok ==> snapshot == Some(EncodeSnapshot(pairs)[..kept]) && temp == None
      ensures !ok ==> snapshot == old(snapshot) && temp in {old(temp), None} && kept == |EncodeSnapshot(pairs)|
      ensures old(trace) <= trace
      ensures forall i :: |old(trace)| <= i < |trace| ==>
                trace[i].log == log.data
                && (trace[i].snapshot == old(snapshot)
                    || (trace[i].snapshot == Some(EncodeSnapshot(pairs)[..kept]) && trace[i].temp == None))
    {
      hide EncodePair, EncodeHeader, EncodePairs;
      kept := |EncodeSnapshot(pairs)|;
      if !disk.canOpen { return false, kept; }
      ghost var files := Files();
      assert EncodePairs(pairs[..0]) == [] by { NoPairs(); }
      var out, flushed := EncodeHeader(|pairs|), 0;
      temp := Some([]);
      trace := trace + [files.(temp := temp)];
      for i := 0 to |pairs|
        invariant out == EncodeHeader(|pairs|) + EncodePairs(pairs[..i])
        invariant flushed <= |out| && temp == Some(out[..flushed])
        invariant old(trace) <= trace && snapshot == old(snapshot)
        invariant forall j :: |old(trace)| <= j < |trace| ==>
                    trace[j].log == files.log && trace[j].snapshot == files.snapshot
      {
        var key, value := pairs[i].0, pairs[i].1;
        assert pairs[..i + 1] == pairs[..i] + [pairs[i]];
        EncodePairsSnoc(pairs[..i], pairs[i]);
        assert EncodePair(pairs[i]) == Le32(|key| % TWO32) + Le32(|value| % TWO32) + key + value by {
          PairBytes(key, value);
        }
        out := out + (Le32(|key| % TWO32) + Le32(|value| % TWO32) + key + value);
        flushed := FlushSome(flushed, |out|);
        temp := Some(out[..flushed]);
        trace := trace + [files.(temp := temp)];
      }
      assert pairs[..|pairs|] == pairs;
      if !disk.canWrite {
        temp := None;
        trace := trace + [files.(temp := None)];
        return false, kept;
      }
      if disk.canClose { flushed := |out|; } else { flushed := FlushSome(flushed, |out|); }
      kept := flushed;
      if !disk.canRename {
        temp := None;
        trace := trace + [files.(temp := None)];
        return false, |out|;
      }
      snapshot, temp := Some(out[..flushed]), None;
      trace := trace + [Disk(snapshot, None, files.log)];
      ok := true;
    }

    /** The stream passes on as much of its buffer as it likes, or can. */
    static method FlushSome(flushed: nat, available: nat) returns (now: nat)
      requires flushed <= available
      ensures flushed <= now <= available
    {
      now :| flushed <= now <= available;
    }

    static lemma NoPairs()
      ensures EncodePairs([]) == []
    {
    }

    static lemma PairBytes(key: Bytes, value: Bytes)
      ensures EncodePair((key, value)) == Le32(|key| % TWO32) + Le32(|value| % TWO32) + key + value
    {
    }

    /**
     * Checkpoint. With a log it fails if and only if the disk refuses something that is
     * noticed, and completes otherwise. The map does not change. `whole` says that no snapshot
     * was put in place short, which takes a last write that fails. On a recoverable store every
     * crash point of the call recovers to the map, and so does the end of it, if and only if
     * `whole`; and a whole checkpoint that completes makes any store recoverable, whatever its
     * files held before, and its log intact.
     */
    method Checkpoint(disk: DiskAnswers) returns (r: CheckpointResult, ghost whole: bool)
      requires Valid()
      modifies this`snapshot, this`temp, this`trace, log
      ensures Valid() && Map() == old(Map()) && old(trace) <= trace
      ensures (r == Unavailable <==> !walEnabled) && (disk.canClose ==> whole)
      ensures r == Done <==> walEnabled && disk.canOpen && disk.canWrite && disk.canRename && disk.canReset
      ensures !walEnabled ==> whole && Files() == old(Files()) && trace == old(trace)
      ensures r == Done ==> log.data == [] && temp == None && snapshot.Some?
      ensures r == Done ==> exists pairs, n: nat :: Lists(LexLess, Map(), pairs) && n <= |EncodeSnapshot(pairs)|
                              && snapshot.value == EncodeSnapshot(pairs)[..n]
                                 && (whole <==> n == |EncodeSnapshot(pairs)|)
      ensures r == Failed ==> log.data == old(log.data)
      ensures old(Recoverable()) && walEnabled && SizesOk(Map()) ==>
                && (Recoverable() <==> whole) && (!whole ==> Recover(Files()).SnapshotUnreadable?)
                && (whole ==> forall i :: |old(trace)| <= i < |trace| ==> Recover(trace[i]) == Store(Map()))
      ensures r == Done && whole && SizesOk(Map()) ==> Recoverable() && LogIntact(log.data)
    {
      hide SkipList.Valid, SkipList.Map, LogIntact, Recover, Lists, EncodeSnapshot, SizesOk;
      if !walEnabled { return Unavailable, true; }
      ghost var before, m := Files(), Map();
      var entries := index.Snapshot();
      var written, kept := WriteSnapshotFile(entries, disk);
      whole := kept == |EncodeSnapshot(entries)|;
      assert EncodeSnapshot(entries)[..|EncodeSnapshot(entries)|] == EncodeSnapshot(entries);
      SnapshotPoints(before, m, entries, kept, trace, |old(trace)|);
      assert !written ==> Files().log == before.log && Files().snapshot == before.snapshot;
      if !written {
        SameRecovery(before, Files());
        return Failed, true;
      }
      if !disk.canReset { return Failed, whole; }
      log.Truncate();
      trace := trace + [Files()];
      r := Done;
    }
  }

  /** What the files recover to while, and after, a snapshot of the map is written and renamed. */
  lemma SnapshotPoints(before: Disk, m: Contents, pairs: Pairs, kept: nat, trace: seq<Disk>, from: nat)
    requires Lists(LexLess, m, pairs) && kept <= |EncodeSnapshot(pairs)| && from <= |trace|
    requires forall i :: from <= i < |trace| ==>
               trace[i].log == before.log
               && (trace[i].snapshot == before.snapshot
                   || (trace[i].snapshot == Some(EncodeSnapshot(pairs)[..kept]) && trace[i].temp == None))
    ensures SizesOk(m) && kept == |EncodeSnapshot(pairs)| ==>
              && Recover(Disk(Some(EncodeSnapshot(pairs)[..kept]), None, [])) == Store(m) && LogIntact([])
              && (Recover(before) == Store(m) ==>
                   Recover(Disk(Some(EncodeSnapshot(pairs)[..kept]), None, before.log)) == Store(m))
    ensures SizesOk(m) && kept < |EncodeSnapshot(pairs)| ==>
              forall log :: Recover(Disk(Some(EncodeSnapshot(pairs)[..kept]), None, log)).SnapshotUnreadable?
    ensures SizesOk(m) && kept == |EncodeSnapshot(pairs)| && Recover(before) == Store(m) ==>
              forall i :: from <= i < |trace| ==> Recover(trace[i]) == Store(m)
  {
    hide LogIntact, Recover, Lists, EncodeSnapshot, SizesOk;
    if SizesOk(m) {
      ListingFits(m, pairs);
      var whole := EncodeSnapshot(pairs);
      if kept < |whole| {
        forall log ensures Recover(Disk(Some(whole[..kept]), None, log)).SnapshotUnreadable? {
          ShortSnapshot(pairs, kept, log);
        }
      } else {
        assert whole[..kept] == whole;
        AfterReset(m, pairs);
        if Recover(before) == Store(m) {
          CheckpointCrash(before, m, pairs);
          forall i | from <= i < |trace| ensures Recover(trace[i]) == Store(m) {
            if trace[i].snapshot == before.snapshot {
              SameRecovery(before, trace[i]);
            } else {
              assert trace[i] == Disk(Some(whole), None, before.log);
            }
          }
        }
      }
    }
  }

  /** The sizes that the formats can hold. */
  ghost predicate SizesOk(m: Contents) {
    |m| < TWO64 && forall k :: k in m ==> |k| < TWO32 && |m[k]| < TWO32
  }

  lemma ListingFits(m: Contents, pairs: Pairs)
    requires Lists(LexLess, m, pairs) && SizesOk(m)
    ensures PairsOk(pairs) && |pairs| < TWO64
  {
    LexOrder();
    ListingSize(LexLess, m, pairs);
    forall p | p in pairs ensures PairOk(p) {
      var i :| 0 <= i < |pairs| && pairs[i] == p;
      assert pairs[i].0 in m;
    }
  }

  /** The temporary file plays no part in recovery. */
  lemma SameRecovery(a: Disk, b: Disk)
    requires a.log == b.log && a.snapshot == b.snapshot
    ensures Recover(a) == Recover(b)
  {
  }

  lemma {:induction false} ListingSize(less: Order, m: Contents, pairs: Pairs)
    requires StrictTotalOrder(less) && Lists(less, m, pairs)
    ensures |pairs| == |m|
    decreases |pairs|
  {
    if pairs == [] {
      assert m == map[] by {
        assert m.Keys == {};
      }
    } else {
      ListsTail(less, m, pairs);
      NotEmpty(less, m, pairs);
      var key := pairs[0].0;
      assert key in m by { assert 0 <= 0 < |pairs|; }
      assert m.Keys == (m - {key}).Keys + {key};
      ListingSize(less, m - {key}, pairs[1..]);
    }
  }

  // ----------------------------------------------------------------- whole runs

  datatype Update = PutOp(key: Bytes, value: Bytes) | DeleteOp(key: Bytes) | CheckpointOp(disk: DiskAnswers)

  predicate UpdateFits(u: Update) {
    match u
    case PutOp(k, v) => |k| < TWO32 && |v| < TWO32
    case DeleteOp(k) => |k| < TWO32
    case CheckpointOp(_) => true
  }

  function Effect(m: Contents, u: Update): Contents {
    match u
    case PutOp(k, v) => m[k := v]
    case DeleteOp(k) => m - {k}
    case CheckpointOp(_) => m
  }

  ghost function MapAfter(m: Contents, us: seq<Update>): Contents {
    if us == [] then m else Effect(MapAfter(m, us[..|us| - 1]), us[|us| - 1])
  }

  lemma EffectFits(m: Contents, u: Update)
    requires SizesOk(m) && |m| + 1 < TWO64 && UpdateFits(u)
    ensures SizesOk(Effect(m, u)) && |Effect(m, u)| <= |m| + 1
  {
    match u {
      case PutOp(k, v) =>
        assert m[k := v].Keys == m.Keys + {k};
        hide SizesOk;
        PutFits(m, k, v);
      case DeleteOp(k) =>
        assert (m - {k}).Keys == m.Keys - {k};
      case CheckpointOp(_) =>
    }
  }

  lemma PutFits(m: Contents, key: Bytes, value: Bytes)
    requires SizesOk(m) && |m| + 1 < TWO64 && |key| < TWO32 && |value| < TWO32 && |m[key := value]| <= |m| + 1
    ensures SizesOk(m[key := value])
  {
  }

  /** The crash points `from..to` lie inside an update that takes `before` to `after`. */
  ghost predicate CutBetween(trace: seq<Disk>, from: nat, to: nat, before: Contents, after: Contents) {
    forall i :: from <= i < to <= |trace| ==> Recover(trace[i]) in {Store(before), Store(after)}
  }

  /** `whole` is false when a checkpoint has put a short snapshot in place. */
  method DoUpdate(store: KVStore, u: Update) returns (ghost whole: bool)
    requires store.Valid() && store.walEnabled && SizesOk(store.Map()) && UpdateFits(u)
    modifies store, store.index, store.index.head, store.index.live, store.log
    ensures store.Valid() && store.Map() == Effect(old(store.Map()), u) && old(store.trace) <= store.trace
    ensures !whole ==> u.CheckpointOp? && !u.disk.canClose
    ensures old(store.Recoverable()) && LogIntact(old(store.log.data)) && whole ==>
              && store.Recoverable() && LogIntact(store.log.data)
              && CutBetween(store.trace, |old(store.trace)|, |store.trace|, old(store.Map()), store.Map())
    ensures forall n :: n in store.index.live ==> n in old(store.index.live) || fresh(n)
  {
    hide SkipList.Valid, SkipList.Map, LogIntact, Recover, SizesOk, Lists;
    var a: byte, b: byte, c: byte := *, *, *;
    var pad := [a, b, c];
    whole := true;
    match u {
      case PutOp(k, v) => var _ := store.Put(k, v, pad);
      case DeleteOp(k) => var _ := store.Delete(k, pad);
      case CheckpointOp(disk) =>
        var r, complete := store.Checkpoint(disk);
        whole := complete;
    }
  }

  /** Update j starts at crash point `marks[j]`, and cutting it leaves the map before or after it. */
  ghost predicate CutAt(trace: seq<Disk>, marks: seq<nat>, m: Contents, updates: seq<Update>, j: nat)
    requires j < |updates| && |marks| == |updates| + 1
  {
    && marks[j] <= marks[j + 1] <= |trace|
    && CutBetween(trace, marks[j], marks[j + 1], MapAfter(m, updates[..j]), MapAfter(m, updates[..j + 1]))
  }

  ghost predicate CutCleanly(trace: seq<Disk>, marks: seq<nat>, m: Contents, updates: seq<Update>) {
    |marks| == |updates| + 1 && forall j :: 0 <= j < |updates| ==> CutAt(trace, marks, m, updates, j)
  }

  lemma NothingCut(trace: seq<Disk>, m: Contents)
    ensures CutCleanly(trace, [|trace|], m, [])
  {
  }

  lemma CutNext(trace: seq<Disk>, trace': seq<Disk>, marks: seq<nat>, m: Contents, updates: seq<Update>, u: Update)
    requires CutCleanly(trace, marks, m, updates) && trace <= trace' && marks[|updates|] == |trace|
    requires CutBetween(trace', |trace|, |trace'|, MapAfter(m, updates), Effect(MapAfter(m, updates), u))
    ensures CutCleanly(trace', marks + [|trace'|], m, updates + [u])
  {
    hide CutBetween, Effect, MapAfter;
    var marks', updates' := marks + [|trace'|], updates + [u];
    forall j | 0 <= j < |updates'| ensures CutAt(trace', marks', m, updates', j) {
      assert updates'[..j] == updates[..j];
      if j < |updates| {
        assert updates'[..j + 1] == updates[..j + 1] && CutAt(trace, marks, m, updates, j);
        CutKept(trace, trace', marks[j], marks[j + 1], MapAfter(m, updates[..j]), MapAfter(m, updates[..j + 1]));
      } else {
        assert updates'[..j + 1] == updates' && updates[..j] == updates;
        MapAfterNext(m, updates, u);
      }
    }
  }

  lemma CutKept(trace: seq<Disk>, trace': seq<Disk>, from: nat, to: nat, before: Contents, after: Contents)
    requires trace <= trace' && from <= to <= |trace| && CutBetween(trace, from, to, before, after)
    ensures CutBetween(trace', from, to, before, after)
  {
    hide Recover;
    forall i | from <= i < to ensures Recover(trace'[i]) in {Store(before), Store(after)} {
      assert trace'[i] == trace[i];
    }
  }

  lemma MapAfterNext(m: Contents, updates: seq<Update>, u: Update)
    ensures MapAfter(m, updates + [u]) == Effect(MapAfter(m, updates), u)
  {
    assert (updates + [u])[..|updates|] == updates;
  }

  /**
   * Any run of Put, Delete and Checkpoint on a healthy store, whether or not the
   * checkpoints succeed. Up to the first checkpoint that puts a short snapshot in
   * place, at `upTo`, wherever an update is cut, recovery yields the map after the
   * completed updates, or that map with the update in flight.
   */
  method Run(store: KVStore, updates: seq<Update>) returns (ghost marks: seq<nat>, ghost upTo: nat)
    requires store.Valid() && store.walEnabled && store.Recoverable() && LogIntact(store.log.data)
    requires SizesOk(store.Map()) && |store.Map()| + |updates| < TWO64
    requires forall u :: u in updates ==> UpdateFits(u)
    modifies store, store.index, store.index.head, store.index.live, store.log
    ensures store.Valid() && store.Map() == MapAfter(old(store.Map()), updates)
    ensures upTo <= |updates| && (upTo < |updates| ==> updates[upTo].CheckpointOp? && !updates[upTo].disk.canClose)
    ensures |marks| == upTo + 1 && marks[0] == |old(store.trace)|
    ensures upTo == |updates| ==> store.Recoverable() && LogIntact(store.log.data) && marks[upTo] == |store.trace|
    ensures CutCleanly(store.trace, marks, old(store.Map()), updates[..upTo])
  {
    hide KVStore.Valid, KVStore.Map, KVStore.Recoverable, LogIntact, SizesOk, Recover, CutBetween, CutCleanly,
        UpdateFits;
    hide MapAfter, Effect;
    assert MapAfter(store.Map(), []) == store.Map() by { NothingDone(store.Map()); }
    assert updates[..0] == [];
    assert CutCleanly(store.trace, [|store.trace|], store.Map(), []) by { NothingCut(store.trace, store.Map()); }
    marks := [|store.trace|];
    ghost var m := store.Map();
    upTo := 0;
    for i := 0 to |updates|
      invariant store.Valid() && store.Map() == MapAfter(m, updates[..i]) && SizesOk(store.Map())
                && |store.Map()| <= |m| + i
      invariant upTo <= i && (upTo < i ==> updates[upTo].CheckpointOp? && !updates[upTo].disk.canClose)
      invariant |marks| == upTo + 1 && marks[0] == |old(store.trace)|
      invariant upTo == i ==> store.Recoverable() && LogIntact(store.log.data) && marks[upTo] == |store.trace|
      invariant CutCleanly(store.trace, marks, m, updates[..upTo])
      invariant forall n :: n in store.index.live ==> n in old(store.index.live) || fresh(n)
    {
      assert updates[..i] + [updates[i]] == updates[..i + 1];
      MapAfterNext(m, updates[..i], updates[i]);
      EffectFits(store.Map(), updates[i]);
      ghost var trace := store.trace;
      ghost var whole := DoUpdate(store, updates[i]);
      if upTo == i && whole {
        CutNext(trace, store.trace, marks, m, updates[..i], updates[i]);
        marks, upTo := marks + [|store.trace|], i + 1;
      } else {
        CleanLater(trace, store.trace, marks, m, updates[..upTo]);
      }
    }
    assert updates[..|updates|] == updates;
  }

  lemma NothingDone(m: Contents)
    ensures MapAfter(m, []) == m
  {
  }

  lemma CleanLater(trace: seq<Disk>, trace': seq<Disk>, marks: seq<nat>, m: Contents, updates: seq<Update>)
    requires CutCleanly(trace, marks, m, updates) && trace <= trace'
    ensures CutCleanly(trace', marks, m, updates)
  {
    hide CutBetween, MapAfter;
    forall j | 0 <= j < |updates| ensures CutAt(trace', marks, m, updates, j) {
      assert CutAt(trace, marks, m, updates, j);
      CutKept(trace, trace', marks[j], marks[j + 1], MapAfter(m, updates[..j]), MapAfter(m, updates[..j + 1]));
    }
  }
}
