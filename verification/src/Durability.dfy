/**
 * Crash safety of the store: every run of Put, Delete and Checkpoint by a single
 * caller, cut by process crashes at any byte and restarted any number of times.
 *
 * A crash loses the memory and keeps the files. `journal` lists the updates that
 * have taken effect, in order. `base`, `entries`, `part` and `partOf` are history
 * variables that name what the files contain: the pairs of the snapshot, the
 * whole records of the log, and how much of which record follows them. `lossy`
 * says that the snapshot was put in place although closing the stream had failed
 * to write the end of it, which the code does not notice.
 */
module Durability {
  import opened Wrappers
  import opened Bytes
  import opened Orders
  import opened SortedMap
  import opened WalFormat
  import opened SnapshotFormat
  import opened Recovery

  datatype Phase =
    | Idle
    | Appending(record: LogRecord, rest: Bytes)     // bytes of the record still to be written
    | Logged(record: LogRecord)                     // in the log, not yet in memory
    | Snapshotting(pairs: Pairs, rest: Bytes)       // bytes of the temporary file still to be written
    | Renamed                                       // new snapshot in place, log not yet reset
    | Down(lost: Option<LogRecord>)                 // crashed; `lost` had reached the log

  datatype State = State(
    disk: Disk,
    mem: Contents,
    phase: Phase,
    journal: seq<LogRecord>,
    base: Pairs,
    entries: seq<Entry>,
    part: nat,
    partOf: Entry,
    lossy: bool)

  ghost function Fold(journal: seq<LogRecord>): Contents { ApplyRecords(map[], journal) }

  /** The update that is in the log but not yet acknowledged. */
  function Pending(p: Phase): seq<LogRecord> {
    match p
    case Logged(r) => [r]
    case Down(Some(r)) => [r]
    case _ => []
  }

  ghost predicate Init(s: State) {
    && s.disk == Disk(None, None, []) && s.mem == map[] && s.phase == Idle && s.journal == []
    && s.base == [] && s.entries == [] && s.part == 0 && EntryOk(s.partOf) && !s.lossy
  }

  // -------------------------------------------------------------------- steps

  /** Put or Delete starts to append. A store that was opened on a torn log and
      never checkpointed since is excluded: its records would land behind the tail. */
  ghost predicate Begin(s: State, s': State, e: Entry) {
    && s.phase == Idle && s.part == 0 && EntryOk(e)
    && s' == s.(phase := Appending(e.record, EncodeEntry(e)), partOf := e)
  }

  /** A write(2) puts some more bytes of the record into the log. */
  ghost predicate WriteLog(s: State, s': State, n: nat) {
    && s.phase.Appending? && 1 <= n <= |s.phase.rest|
    && var disk := s.disk.(log := s.disk.log + s.phase.rest[..n]);
       s' == if n < |s.phase.rest|
             then s.(disk := disk, phase := Appending(s.phase.record, s.phase.rest[n..]), part := s.part + n)
             else s.(disk := disk, phase := Logged(s.phase.record), entries := s.entries + [s.partOf], part := 0)
  }

  /** The index is updated and the call returns. */
  ghost predicate Finish(s: State, s': State) {
    && s.phase.Logged?
    && s' == s.(mem := ApplyRecord(s.mem, s.phase.record), phase := Idle, journal := s.journal + [s.phase.record])
  }

  ghost predicate BeginCheckpoint(s: State, s': State, pairs: Pairs) {
    && s.phase == Idle && Lists(LexLess, s.mem, pairs) && |pairs| < TWO64
    && s' == s.(disk := s.disk.(temp := Some([])), phase := Snapshotting(pairs, EncodeSnapshot(pairs)))
  }

  ghost predicate WriteTemp(s: State, s': State, n: nat) {
    && s.phase.Snapshotting? && 1 <= n <= |s.phase.rest| && s.disk.temp.Some?
    && s' == s.(disk := s.disk.(temp := Some(s.disk.temp.value + s.phase.rest[..n])),
                phase := Snapshotting(s.phase.pairs, s.phase.rest[n..]))
  }

  /** Writing or renaming failed: the temporary file is unlinked, the command reports failure. */
  ghost predicate AbandonCheckpoint(s: State, s': State) {
    s.phase.Snapshotting? && s' == s.(disk := s.disk.(temp := None), phase := Idle)
  }

  ghost predicate Rename(s: State, s': State) {
    && s.phase.Snapshotting? && s.phase.rest == [] && s.disk.temp.Some?
    && s' == s.(disk := Disk(s.disk.temp, None, s.disk.log), phase := Renamed, base := s.phase.pairs, lossy := false)
  }

  /** The stream was still good when its state was read, but closing it could not write the
      rest of its buffer. Nobody looks at it again: the short file is renamed. */
  ghost predicate RenameShort(s: State, s': State) {
    && s.phase.Snapshotting? && s.phase.rest != [] && s.disk.temp.Some?
    && s' == s.(disk := Disk(s.disk.temp, None, s.disk.log), phase := Renamed, base := s.phase.pairs, lossy := true)
  }

  /** The log is truncated and the checkpoint is complete. */
  ghost predicate ResetLog(s: State, s': State) {
    s.phase == Renamed && s' == s.(disk := s.disk.(log := []), phase := Idle, entries := [], part := 0)
  }

  /** The final sync or the truncation failed: the log stays, the command reports failure. */
  ghost predicate KeepLog(s: State, s': State) {
    s.phase == Renamed && s' == s.(phase := Idle)
  }

  ghost predicate Crash(s: State, s': State) {
    && !s.phase.Down?
    && s' == s.(mem := map[], phase := Down(if s.phase.Logged? then Some(s.phase.record) else None))
  }

  /** Opening the store again; it comes up only if recovery does not throw. */
  ghost predicate Restart(s: State, s': State) {
    && s.phase.Down? && Recover(s.disk).Store?
    && s' == s.(mem := Recover(s.disk).contents, phase := Idle, journal := s.journal + Pending(s.phase))
  }

  ghost predicate Next(s: State, s': State) {
    || (exists e :: Begin(s, s', e)) || (exists n :: WriteLog(s, s', n)) || Finish(s, s')
    || (exists pairs :: BeginCheckpoint(s, s', pairs)) || (exists n :: WriteTemp(s, s', n))
    || AbandonCheckpoint(s, s') || Rename(s, s') || RenameShort(s, s') || ResetLog(s, s') || KeepLog(s, s')
    || Crash(s, s') || Restart(s, s')
  }

  ghost predicate IsRun(run: seq<State>) {
    |run| >= 1 && Init(run[0]) && forall i :: 0 <= i < |run| - 1 ==> Next(run[i], run[i + 1])
  }

  // ---------------------------------------------------------------- invariant

  ghost predicate FilesOk(s: State) {
    && EntriesOk(s.entries) && EntryOk(s.partOf) && s.part < |EncodeEntry(s.partOf)|
    && s.disk.log == EncodeAll(s.entries) + EncodeEntry(s.partOf)[..s.part]
    && (if s.lossy then Base(s.disk).LoadFailed? else Base(s.disk) == Loaded(s.base))
  }

  ghost predicate ContentsOk(s: State) {
    && ApplyRecords(PutAll(map[], s.base), Records(s.entries)) == Fold(s.journal + Pending(s.phase))
    && (!s.phase.Down? ==> s.mem == Fold(s.journal))
    && (forall r :: r in s.journal + Pending(s.phase) ==> Encodable(r))
  }

  ghost predicate PhaseOk(s: State)
    requires FilesOk(s)
  {
    match s.phase
    case Appending(r, rest) => r == s.partOf.record && rest == EncodeEntry(s.partOf)[s.part..]
    case Snapshotting(pairs, rest) =>
      && Lists(LexLess, s.mem, pairs) && |pairs| < TWO64
      && s.disk.temp.Some? && s.disk.temp.value + rest == EncodeSnapshot(pairs)
    case Renamed => PutAll(map[], s.base) == s.mem
    case _ => true
  }

  ghost predicate Inv(s: State) { FilesOk(s) && ContentsOk(s) && PhaseOk(s) }

  lemma InvBegin(s: State, s': State, e: Entry)
    requires Inv(s) && Begin(s, s', e)
    ensures Inv(s')
  {
    hide EncodeAll, Encode, ApplyRecords, PutAll, Base;
    assert EncodeEntry(e)[..0] == [] == EncodeEntry(s.partOf)[..0];
  }

  lemma InvWriteLog(s: State, s': State, n: nat)
    requires Inv(s) && WriteLog(s, s', n)
    ensures Inv(s')
  {
    hide EncodeEntry, ApplyRecords, PutAll, EncodeAll, Base, Records;
    var whole := EncodeEntry(s.partOf);
    var rest := s.phase.rest;
    assert rest == whole[s.part..];
    MoreWritten(EncodeAll(s.entries), whole, s.part, n);
    assert s'.disk.log == EncodeAll(s.entries) + whole[..s.part + n];
    assert Base(s'.disk) == Base(s.disk) by { SameBase(s.disk, s'.disk); }
    if n < |rest| {
      assert rest[n..] == whole[s.part + n..];
    } else {
      assert whole[..s.part + n] == whole;
      WholeLogged(s);
    }
  }

  lemma MoreWritten(before: Bytes, whole: Bytes, part: nat, n: nat)
    requires part + n <= |whole|
    ensures before + whole[..part] + whole[part..][..n] == before + whole[..part + n]
  {
    assert whole[..part] + whole[part..][..n] == whole[..part + n];
  }

  lemma SameBase(a: Disk, b: Disk)
    requires a.snapshot == b.snapshot
    ensures Base(a) == Base(b)
  {
  }

  /** The record in flight has become part of the log. */
  lemma WholeLogged(s: State)
    requires Inv(s) && s.phase.Appending?
    ensures var entries, r := s.entries + [s.partOf], s.phase.record;
            && EntriesOk(entries) && EncodeAll(entries) == EncodeAll(s.entries) + EncodeEntry(s.partOf)
            && ApplyRecords(PutAll(map[], s.base), Records(entries)) == Fold(s.journal + [r])
            && EncodeEntry(s.partOf)[..0] == []
    ensures Encodable(s.phase.record)
  {
    hide EncodeEntry, ApplyRecords, PutAll, EncodeAll, Base;
    EncodeAllConcat(s.entries, [s.partOf]);
    OneEntry(s.partOf);
    assert Records([s.partOf]) == [s.phase.record];
    ApplyConcat(PutAll(map[], s.base), Records(s.entries), [s.phase.record]);
    ApplyConcat(map[], s.journal, [s.phase.record]);
    assert s.journal + [] == s.journal;
  }

  lemma OneEntry(e: Entry)
    requires EntryOk(e)
    ensures EncodeAll([e]) == EncodeEntry(e)
  {
    assert EncodeEntry(e) + [] == EncodeEntry(e);
  }

  lemma ApplyOne(r: LogRecord)
    ensures forall m :: ApplyRecords(m, [r]) == ApplyRecord(m, r)
  {
    forall m ensures ApplyRecords(m, [r]) == ApplyRecord(m, r) {
      assert [r][1..] == [];
    }
  }

  lemma InvFinish(s: State, s': State)
    requires Inv(s) && Finish(s, s')
    ensures Inv(s')
  {
    hide EncodeEntry, PutAll, EncodeAll, Base, ApplyRecords;
    var r := s.phase.record;
    ApplyConcat(map[], s.journal, [r]);
    ApplyOne(r);
    assert s'.journal + [] == s'.journal;
  }

  lemma {:induction false} FoldSizes(m: Contents, journal: seq<LogRecord>)
    requires forall r :: r in journal ==> Encodable(r)
    requires forall k :: k in m ==> |k| < TWO32 && |m[k]| < TWO32
    ensures var m' := ApplyRecords(m, journal); forall k :: k in m' ==> |k| < TWO32 && |m'[k]| < TWO32
    decreases |journal|
  {
    if journal != [] {
      assert Encodable(journal[0]);
      FoldSizes(ApplyRecord(m, journal[0]), journal[1..]);
    }
  }

  lemma ListingSizes(s: State, pairs: Pairs)
    requires Inv(s) && s.phase.Snapshotting? && pairs == s.phase.pairs
    ensures PairsOk(pairs)
  {
    FoldSizes(map[], s.journal);
    hide ApplyRecords, EncodeAll, EncodeEntry, PutAll, Base;
    forall p | p in pairs ensures PairOk(p) {
      var i :| 0 <= i < |pairs| && pairs[i] == p;
      assert pairs[i].0 in s.mem;
    }
  }

  /** Renaming puts a snapshot of the current map under the old log; replaying the
      log over it changes nothing, because replay is idempotent. */
  lemma InvRename(s: State, s': State)
    requires Inv(s) && Rename(s, s')
    ensures Inv(s')
  {
    hide EncodeEntry, EncodeAll, ApplyRecords, PutAll, LoadSnapshot, EncodeSnapshot, Lists;
    var pairs := s.phase.pairs;
    ListingSizes(s, pairs);
    var file := s.disk.temp.value;
    assert file + [] == file;
    SnapshotRoundTrip(pairs, []);
    assert EncodeSnapshot(pairs) + [] == EncodeSnapshot(pairs);
    NewBase(s, pairs);
    assert s.journal + [] == s.journal;
  }

  lemma NewBase(s: State, pairs: Pairs)
    requires Inv(s) && s.phase.Snapshotting? && pairs == s.phase.pairs
    ensures PutAll(map[], pairs) == s.mem && ApplyRecords(s.mem, Records(s.entries)) == s.mem
  {
    hide EncodeEntry, EncodeAll, ApplyRecords, PutAll, LoadSnapshot, EncodeSnapshot, Lists;
    LexOrder();
    ListingRebuilds(LexLess, s.mem, pairs);
    ReplayIdempotent(PutAll(map[], s.base), Records(s.entries));
    assert s.journal + [] == s.journal;
  }

  /** A short snapshot cannot be loaded. */
  lemma InvRenameShort(s: State, s': State)
    requires Inv(s) && RenameShort(s, s')
    ensures Inv(s')
  {
    hide EncodeEntry, EncodeAll, ApplyRecords, PutAll, LoadSnapshot, EncodeSnapshot, Lists;
    var pairs := s.phase.pairs;
    ListingSizes(s, pairs);
    var whole := EncodeSnapshot(pairs);
    assert s.disk.temp.value == whole[..|s.disk.temp.value|];
    SnapshotCut(pairs, |s.disk.temp.value|);
    NewBase(s, pairs);
    assert s.journal + [] == s.journal;
  }

  lemma InvResetLog(s: State, s': State)
    requires Inv(s) && ResetLog(s, s')
    ensures Inv(s')
  {
    hide EncodeEntry, PutAll;
    assert s.journal + [] == s.journal;
    assert EncodeEntry(s.partOf)[..0] == [];
  }

  lemma InvCrash(s: State, s': State)
    requires Inv(s) && Crash(s, s')
    ensures Inv(s')
  {
    hide EncodeEntry, EncodeAll, ApplyRecords, PutAll, Base;
  }

  /** What recovery finds on the files of any state. */
  lemma RecoverInv(s: State)
    requires Inv(s)
    ensures if s.lossy then Recover(s.disk).SnapshotUnreadable?
            else Recover(s.disk) == Store(Fold(s.journal + Pending(s.phase)))
  {
    if s.lossy {
      hide FilesOk, ContentsOk, PhaseOk, Base;
      LossyBase(s);
    } else {
      hide EncodeEntry, EncodeAll, ApplyRecords, PutAll, Base, Recover, Records;
      RecoverLog(s.disk, s.base, s.entries, s.partOf, s.part);
    }
  }

  lemma LossyBase(s: State)
    requires Inv(s) && s.lossy
    ensures Base(s.disk).LoadFailed?
  {
    hide Base;
  }

  lemma InvRestart(s: State, s': State)
    requires Inv(s) && Restart(s, s')
    ensures Inv(s')
  {
    hide EncodeEntry, EncodeAll, ApplyRecords, PutAll, Base, Recover, Fold, Records;
    RecoverInv(s);
    assert s'.journal + [] == s'.journal;
    assert ContentsOk(s');
    hide ContentsOk;
    assert FilesOk(s');
  }

  lemma InvCheckpointSteps(s: State, s': State)
    requires Inv(s)
    requires (exists pairs :: BeginCheckpoint(s, s', pairs)) || (exists n :: WriteTemp(s, s', n))
          || AbandonCheckpoint(s, s') || KeepLog(s, s')
    ensures Inv(s')
  {
    hide EncodeEntry, EncodeAll, ApplyRecords, PutAll, EncodeSnapshot, Lists, LoadSnapshot;
    if n :| WriteTemp(s, s', n) {
      assert s'.disk.temp.value + s'.phase.rest == s.disk.temp.value + s.phase.rest;
    }
  }

  lemma InvNext(s: State, s': State)
    requires Inv(s) && Next(s, s')
    ensures Inv(s')
  {
    hide Inv, Begin, WriteLog, Finish, Rename, ResetLog, Crash, Restart, BeginCheckpoint, WriteTemp, AbandonCheckpoint,
        KeepLog, RenameShort;
    if e :| Begin(s, s', e) {
      InvBegin(s, s', e);
    } else if n :| WriteLog(s, s', n) {
      InvWriteLog(s, s', n);
    } else if Finish(s, s') {
      InvFinish(s, s');
    } else if Rename(s, s') {
      InvRename(s, s');
    } else if RenameShort(s, s') {
      InvRenameShort(s, s');
    } else if ResetLog(s, s') {
      InvResetLog(s, s');
    } else if Crash(s, s') {
      InvCrash(s, s');
    } else if Restart(s, s') {
      InvRestart(s, s');
    } else {
      InvCheckpointSteps(s, s');
    }
  }

  lemma InvInit(s: State)
    requires Init(s)
    ensures Inv(s)
  {
  }

  // ------------------------------------------------------------------ results

  lemma {:induction false} RunInv(run: seq<State>, i: nat)
    requires IsRun(run) && i < |run|
    ensures Inv(run[i])
  {
    hide Inv, Next, Init;
    if i == 0 {
      InvInit(run[0]);
    } else {
      RunInv(run, i - 1);
      InvNext(run[i - 1], run[i]);
    }
  }

  /**
   * At every moment of every run, also in the middle of a record, of the temporary
   * snapshot or of a checkpoint, a crash leaves files from which recovery does not
   * throw and yields the map after all completed updates, plus the one update in
   * flight exactly when its record has reached the log completely: if and only if
   * the snapshot in place was flushed completely when its stream was closed.
   */
  lemma CrashSafe(run: seq<State>, i: nat)
    requires IsRun(run) && i < |run|
    ensures Recover(run[i].disk) == Store(Fold(run[i].journal + Pending(run[i].phase))) <==> !run[i].lossy
    ensures run[i].lossy ==> Recover(run[i].disk).SnapshotUnreadable?
    ensures !run[i].phase.Down? ==> run[i].mem == Fold(run[i].journal)
  {
    hide Recover, Fold;
    RunInv(run, i);
    RecoverInv(run[i]);
    assert ContentsOk(run[i]);
  }

  lemma StepGrows(s: State, s': State)
    requires Next(s, s')
    ensures s.journal <= s'.journal
  {
    hide EncodeEntry, EncodeSnapshot, Lists, Recover, ApplyRecord;
  }

  /** No completed update is ever forgotten: journals only grow. */
  lemma {:induction false} JournalGrows(run: seq<State>, i: nat, j: nat)
    requires IsRun(run) && i <= j < |run|
    ensures run[i].journal <= run[j].journal
  {
    hide Next, Init;
    if i < j {
      JournalGrows(run, i, j - 1);
      StepGrows(run[j - 1], run[j]);
    }
  }

  /** During a checkpoint, and whether or not it succeeds, the recoverable map is the map in
      memory, if and only if no snapshot was put in place short. */
  lemma CheckpointPreserves(run: seq<State>, i: nat)
    requires IsRun(run) && i < |run|
    requires run[i].phase.Snapshotting? || run[i].phase == Renamed || run[i].phase == Idle
    ensures Recover(run[i].disk) == Store(run[i].mem) <==> !run[i].lossy
  {
    hide Recover, Fold;
    CrashSafe(run, i);
    assert run[i].journal + [] == run[i].journal;
  }

  lemma HeaderFirst(pairs: Pairs)
    ensures EncodeSnapshot(pairs) != []
  {
  }

  lemma IdleRecovers(s: State)
    requires Inv(s) && s.phase == Idle && !s.lossy
    ensures Recover(s.disk) == Store(s.mem)
  {
    hide EncodeEntry, EncodeAll, ApplyRecords, PutAll, LoadSnapshot, Recover;
    RecoverInv(s);
    assert s.journal + [] == s.journal;
  }

  /** An update can be completed from every idle state without a torn tail; it is then in memory, in the log
      and, unless the snapshot is short, in what a restart recovers. */
  lemma UpdateCompletes(s: State, e: Entry) returns (begun: State, logged: State, done: State)
    requires Inv(s) && s.phase == Idle && s.part == 0 && EntryOk(e)
    ensures Begin(s, begun, e) && WriteLog(begun, logged, |EncodeEntry(e)|) && Finish(logged, done)
    ensures done.phase == Idle && done.part == 0 && done.disk == s.disk.(log := s.disk.log + EncodeEntry(e))
    ensures e.record.kind.PutRecord? ==> done.mem == s.mem[e.record.key := e.record.value]
    ensures e.record.kind.DeleteRecord? ==> done.mem == s.mem - {e.record.key}
    ensures done.journal == s.journal + [e.record]
    ensures !s.lossy ==> Recover(done.disk) == Store(done.mem)
  {
    hide EncodeAll, ApplyRecords, PutAll, LoadSnapshot, Inv, Recover, Fold, Header;
    var bytes := EncodeEntry(e);
    begun := s.(phase := Appending(e.record, bytes), partOf := e);
    logged := begun.(disk := s.disk.(log := s.disk.log + bytes), phase := Logged(e.record), entries := s.entries + [e]);
    done := logged.(mem := ApplyRecord(s.mem, e.record), phase := Idle, journal := s.journal + [e.record]);
    assert bytes[..|bytes|] == bytes;
    assert Begin(s, begun, e) && WriteLog(begun, logged, |bytes|) && Finish(logged, done);
    InvBegin(s, begun, e);
    InvWriteLog(begun, logged, |bytes|);
    InvFinish(logged, done);
    if !s.lossy { IdleRecovers(done); }
  }

  /** A checkpoint can be completed from every idle state. It leaves an empty log and files from which
      the map is recovered, also where the log ended in a torn tail or the snapshot was short before. */
  lemma CheckpointCompletes(s: State, pairs: Pairs)
    returns (begun: State, written: State, renamed: State, done: State)
    requires Inv(s) && s.phase == Idle && Lists(LexLess, s.mem, pairs) && |pairs| < TWO64
    ensures BeginCheckpoint(s, begun, pairs) && WriteTemp(begun, written, |EncodeSnapshot(pairs)|)
    ensures Rename(written, renamed) && ResetLog(renamed, done)
    ensures done.phase == Idle && done.part == 0 && done.mem == s.mem && done.journal == s.journal
    ensures done.disk == Disk(Some(EncodeSnapshot(pairs)), None, []) && Recover(done.disk) == Store(s.mem)
  {
    hide EncodeEntry, EncodeAll, ApplyRecords, PutAll, LoadSnapshot, Lists, Inv, Recover, Fold;
    var bytes := EncodeSnapshot(pairs);
    begun := s.(disk := s.disk.(temp := Some([])), phase := Snapshotting(pairs, bytes));
    written := begun.(disk := s.disk.(temp := Some(bytes)), phase := Snapshotting(pairs, []));
    renamed := written.(disk := Disk(Some(bytes), None, s.disk.log), phase := Renamed, base := pairs, lossy := false);
    done := renamed.(disk := renamed.disk.(log := []), phase := Idle, entries := [], part := 0);
    HeaderFirst(pairs);
    assert bytes[..|bytes|] == bytes && [] + bytes == bytes && bytes[|bytes|..] == [];
    assert BeginCheckpoint(s, begun, pairs) && WriteTemp(begun, written, |bytes|);
    InvCheckpointSteps(s, begun);
    InvCheckpointSteps(begun, written);
    InvRename(written, renamed);
    InvResetLog(renamed, done);
    IdleRecovers(done);
  }

  /**
   * The failing input: the disk is full as the stream of the snapshot is closed, and nothing
   * of it is kept. The checkpoint empties the log and reports success, the map in memory is
   * untouched, and the store does not start again.
   */
  lemma CheckpointLost(s: State, pairs: Pairs) returns (begun: State, renamed: State, done: State)
    requires Inv(s) && s.phase == Idle && Lists(LexLess, s.mem, pairs) && |pairs| < TWO64
    ensures BeginCheckpoint(s, begun, pairs) && RenameShort(begun, renamed) && ResetLog(renamed, done)
    ensures done.phase == Idle && done.mem == s.mem && done.disk.log == []
    ensures Recover(done.disk).SnapshotUnreadable?
  {
    hide EncodeEntry, EncodeAll, ApplyRecords, PutAll, LoadSnapshot, Lists, Inv, Recover;
    begun := s.(disk := s.disk.(temp := Some([])), phase := Snapshotting(pairs, EncodeSnapshot(pairs)));
    renamed := begun.(disk := Disk(Some([]), None, s.disk.log), phase := Renamed, base := pairs, lossy := true);
    done := renamed.(disk := renamed.disk.(log := []), phase := Idle, entries := [], part := 0);
    assert BeginCheckpoint(s, begun, pairs);
    InvCheckpointSteps(s, begun);
    HeaderFirst(pairs);
    InvRenameShort(begun, renamed);
    InvResetLog(renamed, done);
    RecoverInv(done);
  }

  /**
   * Why Begin excludes a torn log, exactly: records appended by a store that is idle
   * are all replayed by the next start, behind those already there and with nothing
   * skipped, if and only if the log ends in no torn tail. The condition is what the
   * last replay has reported as skipped_tail_bytes.
   */
  lemma AppendBehindTornTail(s: State, more: seq<Entry>)
    requires Inv(s) && s.phase == Idle && EntriesOk(more)
    ensures WalFormat.Replay(s.disk.log) == Replayed(Records(s.entries), s.part)
    ensures WalFormat.Replay(s.disk.log + EncodeAll(more)) == Replayed(Records(s.entries + more), 0) <==> s.part == 0
  {
    hide EncodeEntry, EncodeAll, WalFormat.Replay, Records, Base, ContentsOk;
    assert s.disk.log + EncodeAll(more) == EncodeAll(s.entries) + (EncodeEntry(s.partOf)[..s.part] + EncodeAll(more));
    TornTailExact(s.entries, s.partOf, s.part, more);
    TornReplay(s.entries, s.partOf, s.part);
  }

  lemma TornReplay(es: seq<Entry>, torn: Entry, n: nat)
    requires EntriesOk(es) && EntryOk(torn) && n < |EncodeEntry(torn)|
    ensures WalFormat.Replay(EncodeAll(es) + EncodeEntry(torn)[..n]) == Replayed(Records(es), n)
  {
    hide EncodeEntry, ParseRecord;
    ReplayThrough(es, EncodeEntry(torn)[..n]);
    CutEntry(torn, n);
    assert Records(es) + [] == Records(es);
  }

  /** What becomes of them: a tail inside the magic, or of just the magic, makes the next
      start throw, and a tail that holds a whole header swallows all that does not fill it up. */
  lemma AppendedLost(s: State, e: Entry, appended: seq<Entry>)
    requires Inv(s) && !s.lossy && s.phase == Idle && EntryOk(e) && EntriesOk(appended)
    ensures var log := s.disk.log + (EncodeEntry(e) + EncodeAll(appended));
            && (1 <= s.part <= 3 ==> Recover(s.disk.(log := log)) == LogUnreadable(InvalidMagic))
            && (s.part == 4 ==> Recover(s.disk.(log := log)) == LogUnreadable(UnknownType))
    ensures var more := EncodeEntry(e) + EncodeAll(appended);
            WalFormat.HEADER <= s.part && s.part + |more| < |EncodeEntry(s.partOf)| ==>
              Recover(s.disk.(log := s.disk.log + more)) == Store(s.mem)
  {
    hide EncodeEntry, EncodeAll, ApplyRecords, PutAll, WalFormat.Replay, LoadSnapshot, Records;
    var tail, more := EncodeEntry(s.partOf)[..s.part], EncodeEntry(e) + EncodeAll(appended);
    assert s.disk.log + more == EncodeAll(s.entries) + (tail + more);
    if 1 <= s.part <= 3 {
      TornMagicPoisons(s.entries, s.partOf, s.part, e, EncodeAll(appended));
    } else if s.part == 4 {
      TornTypePoisons(s.entries, s.partOf, e, EncodeAll(appended));
    } else if WalFormat.HEADER <= s.part && s.part + |more| < |EncodeEntry(s.partOf)| {
      TornPayloadSwallows(s.entries, s.partOf, s.part, more);
      assert s.journal + [] == s.journal;
    }
  }
}
