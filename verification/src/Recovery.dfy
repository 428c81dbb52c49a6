/** What opening a store makes of the files it finds. */
module Recovery {
  import opened Wrappers
  import opened Bytes
  import opened SortedMap
  import opened WalFormat
  import opened SnapshotFormat

  /** The files of one store: snapshot, temporary snapshot, log. */
  datatype Disk = Disk(snapshot: Option<Bytes>, temp: Option<Bytes>, log: Bytes)

  function ApplyRecord(m: Contents, r: LogRecord): Contents {
    if r.kind.PutRecord? then m[r.key := r.value] else m - {r.key}
  }

  function ApplyRecords(m: Contents, rs: seq<LogRecord>): Contents
    decreases |rs|
  {
    if rs == [] then m else ApplyRecords(ApplyRecord(m, rs[0]), rs[1..])
  }

  datatype Recovered = Store(contents: Contents) | SnapshotUnreadable(load: LoadError)
      | LogUnreadable(replay: ReplayError)

  /** The snapshot first, then the log on top of it. */
  function Base(d: Disk): Loaded {
    if d.snapshot.None? then Loaded([]) else LoadSnapshot(d.snapshot.value)
  }

  function Recover(d: Disk): Recovered {
    match Base(d)
    case LoadFailed(e) => SnapshotUnreadable(e)
    case Loaded(pairs) =>
      match WalFormat.Replay(d.log)
      case Refused(_, e) => LogUnreadable(e)
      case Replayed(applied, _) => Store(ApplyRecords(PutAll(map[], pairs), applied))
  }

  lemma {:induction false} ApplyConcat(m: Contents, a: seq<LogRecord>, b: seq<LogRecord>)
    ensures ApplyRecords(m, a + b) == ApplyRecords(ApplyRecords(m, a), b)
    decreases |a|
  {
    if a == [] {
      assert a + b == b;
    } else {
      assert (a + b)[1..] == a[1..] + b;
      ApplyConcat(ApplyRecord(m, a[0]), a[1..], b);
    }
  }

  // ------------------------------------------------------------ idempotence

  /** The maps agree on every key that no record mentions. */
  ghost predicate AgreeOutside(a: Contents, b: Contents, rs: seq<LogRecord>) {
    forall k :: (forall i :: 0 <= i < |rs| ==> rs[i].key != k) ==>
      (k in a <==> k in b) && (k in a && k in b ==> a[k] == b[k])
  }

  /** Applying records overwrites whatever the maps disagreed on. */
  lemma {:induction false} AgreeMeansEqual(a: Contents, b: Contents, rs: seq<LogRecord>)
    requires AgreeOutside(a, b, rs)
    ensures ApplyRecords(a, rs) == ApplyRecords(b, rs)
    decreases |rs|
  {
    if rs == [] {
      assert a == b;
    } else {
      var a', b' := ApplyRecord(a, rs[0]), ApplyRecord(b, rs[0]);
      forall k | forall i :: 0 <= i < |rs[1..]| ==> rs[1..][i].key != k
        ensures (k in a' <==> k in b') && (k in a' && k in b' ==> a'[k] == b'[k])
      {
        if k != rs[0].key {
          assert forall i :: 0 <= i < |rs| ==> rs[i].key != k by {
            forall i | 0 <= i < |rs| ensures rs[i].key != k { if i > 0 { assert rs[i] == rs[1..][i - 1]; } }
          }
        }
      }
      AgreeMeansEqual(a', b', rs[1..]);
    }
  }

  lemma {:induction false} ApplyAgrees(m: Contents, rs: seq<LogRecord>, k: Bytes)
    requires forall i :: 0 <= i < |rs| ==> rs[i].key != k
    ensures (k in ApplyRecords(m, rs) <==> k in m) && (k in m ==> ApplyRecords(m, rs)[k] == m[k])
    decreases |rs|
  {
    if rs != [] { ApplyAgrees(ApplyRecord(m, rs[0]), rs[1..], k); }
  }

  /** Replaying a log over a map that already contains its effects changes nothing. */
  lemma ReplayIdempotent(m: Contents, rs: seq<LogRecord>)
    ensures ApplyRecords(ApplyRecords(m, rs), rs) == ApplyRecords(m, rs)
  {
    var m' := ApplyRecords(m, rs);
    forall k | forall i :: 0 <= i < |rs| ==> rs[i].key != k
      ensures (k in m <==> k in m') && (k in m && k in m' ==> m[k] == m'[k])
    {
      ApplyAgrees(m, rs, k);
    }
    AgreeMeansEqual(m', m, rs);
  }

  // ------------------------------------------------- recovering a healthy disk

  /** A log of whole records and possibly a torn one recovers to the records applied to the snapshot. */
  lemma RecoverLog(d: Disk, pairs: Pairs, es: seq<Entry>, torn: Entry, n: nat)
    requires Base(d) == Loaded(pairs) && EntriesOk(es) && EntryOk(torn) && n < |EncodeEntry(torn)|
    requires d.log == EncodeAll(es) + EncodeEntry(torn)[..n]
    ensures Recover(d) == Store(ApplyRecords(PutAll(map[], pairs), Records(es)))
    ensures WalFormat.Replay(d.log) == Replayed(Records(es), n)
  {
    hide EncodeEntry, ParseRecord;
    ReplayThrough(es, EncodeEntry(torn)[..n]);
    assert ParseRecord(EncodeEntry(torn)[..n]) == Torn by { CutEntry(torn, n); }
    assert Records(es) + [] == Records(es);
  }

  lemma CutEntry(e: Entry, n: nat)
    requires EntryOk(e) && n < |EncodeEntry(e)|
    ensures ParseRecord(EncodeEntry(e)[..n]) == Torn
  {
    hide ParseRecord, Encode;
    ParseCut(e.record, e.pad, n);
  }
}
