/**
 * The sync protocol of the log: appenders, Reset, explicit Sync, the background
 * thread and the destructor, interleaved in any way. One step is one lock, one
 * unlock, one file operation or one access to the shared flags.
 *
 * `written` counts the records appended so far, `synced` how many of them an
 * fsync has made durable, and `truncated` how many a Reset has taken out of the
 * file again. `returned` is a history variable: the positions of the records
 * whose append has returned.
 */
module WalSync {
  import opened Wrappers
  import opened Bytes
  import opened WalFormat

  type Tid = nat

  datatype Holder = Caller(tid: Tid) | Syncer | Destructor

  datatype CallerPc =
    | Idle
    | AppendWanted | AppendHeld | Wrote(at: nat) | Unmarked(at: nat) | MarkHeld(at: nat) | Marked(at: nat)
    | ResetWanted | ResetHeld | Truncated | TruncatedHeld | Cleared
    | SyncWanted | SyncHeld | SyncDone

  datatype SyncerPc =
    | Absent                                          // interval 0: there is no thread
    | Waiting                                         // in wait_for
    | Reading                                         // holds sync_mutex_, about to read and clear the flags
    | Decided(stop: bool, sync: bool)                 // still holds sync_mutex_
    | Syncing(stop: bool)                             // wants append_mutex_
    | Locked(stop: bool)                              // holds append_mutex_, fsync to come
    | Synced(stop: bool)                              // still holds append_mutex_
    | Stopped

  datatype DestructorPc = Running | Stopping | StopHeld | StopSet | Joining | FinalHeld | Closed

  datatype State = State(
    interval: nat,
    written: nat,
    synced: nat,
    truncated: nat,
    dirty: bool,
    stop: bool,
    appendMutex: Option<Holder>,
    syncMutex: Option<Holder>,
    callers: map<Tid, CallerPc>,
    syncer: SyncerPc,
    destructor: DestructorPc,
    returned: set<nat>)

  ghost predicate Init(s: State) {
    && s.written == s.synced == s.truncated == 0 && !s.dirty && !s.stop && s.appendMutex == None && s.syncMutex == None
    && (forall t :: t in s.callers ==> s.callers[t] == Idle)
    && s.syncer == (if s.interval == 0 then Absent else Waiting) && s.destructor == Running && s.returned == {}
  }

  // -------------------------------------------------------------------- steps

  function Move(s: State, t: Tid, pc: CallerPc): State { s.(callers := s.callers[t := pc]) }

  predicate InAppend(pc: CallerPc) { pc.AppendWanted? || pc.AppendHeld? || pc.Wrote? || InMark(pc) }
  predicate InMark(pc: CallerPc) { pc.Unmarked? || pc.MarkHeld? || pc.Marked? }
  predicate InReset(pc: CallerPc) {
    pc.ResetWanted? || pc.ResetHeld? || pc.Truncated? || pc.TruncatedHeld? || pc.Cleared?
  }

  /** The append under append_mutex_. */
  function AppendStep(s: State, t: Tid): Option<State>
    requires t in s.callers
  {
    match s.callers[t]
    case AppendWanted => if s.appendMutex == None then Some(Move(s, t, AppendHeld).(appendMutex := Some(Caller(t))))
        else None
    case AppendHeld => Some(Move(s, t, Wrote(s.written)).(written := s.written + 1))
    case Wrote(at) => Some(Move(s, t, Unmarked(at)).(appendMutex := None))
    case _ => None
  }

  /** MarkDirty: fsync at once for interval 0, else set the flag under sync_mutex_. */
  function MarkStep(s: State, t: Tid): Option<State>
    requires t in s.callers
  {
    match s.callers[t]
    case Unmarked(at) =>
      if s.interval == 0 then Some(Move(s, t, Idle).(synced := s.written, returned := s.returned + {at}))
      else if s.syncMutex == None then Some(Move(s, t, MarkHeld(at)).(syncMutex := Some(Caller(t)))) else None
    case MarkHeld(at) => Some(Move(s, t, Marked(at)).(dirty := true))
    case Marked(at) => Some(Move(s, t, Idle).(syncMutex := None, returned := s.returned + {at}))
    case _ => None
  }

  /** Reset: fsync and truncate under append_mutex_, then clear the flag under both mutexes. */
  function ResetStep(s: State, t: Tid): Option<State>
    requires t in s.callers
  {
    match s.callers[t]
    case ResetWanted => if s.appendMutex == None then Some(Move(s, t, ResetHeld).(appendMutex := Some(Caller(t))))
        else None
    case ResetHeld => Some(Move(s, t, Truncated).(synced := s.written, truncated := s.written))
    case Truncated => if s.syncMutex == None then Some(Move(s, t, TruncatedHeld).(syncMutex := Some(Caller(t))))
        else None
    case TruncatedHeld => Some(Move(s, t, Cleared).(dirty := false))
    case Cleared => Some(Move(s, t, Idle).(syncMutex := None, appendMutex := None))
    case _ => None
  }

  /** An idle caller starts `call`; or an explicit Sync goes on. */
  function OtherStep(s: State, t: Tid, call: CallerPc): Option<State>
    requires t in s.callers
  {
    match s.callers[t]
    case Idle =>
      if s.destructor == Running && call in {AppendWanted, ResetWanted, SyncWanted} then Some(Move(s, t, call))
          else None
    case SyncWanted => if s.appendMutex == None then Some(Move(s, t, SyncHeld).(appendMutex := Some(Caller(t))))
        else None
    case SyncHeld => Some(Move(s, t, SyncDone).(synced := s.written))
    case SyncDone => Some(Move(s, t, Idle).(appendMutex := None))
    case _ => None
  }

  /** The next step of a caller. None means it waits. */
  function CallerStep(s: State, t: Tid, call: CallerPc): Option<State>
    requires t in s.callers
  {
    if InMark(s.callers[t]) then MarkStep(s, t)
    else if InAppend(s.callers[t]) then AppendStep(s, t)
    else if InReset(s.callers[t]) then ResetStep(s, t)
    else OtherStep(s, t, call)
  }

  function SyncerStep(s: State): Option<State> {
    match s.syncer
    case Absent => None
    case Waiting => if s.syncMutex == None then Some(s.(syncMutex := Some(Syncer), syncer := Reading)) else None
    case Reading => Some(s.(syncer := Decided(s.stop, s.dirty), dirty := false))
    case Decided(stop, sync) =>
      Some(s.(syncMutex := None, syncer := if sync then Syncing(stop) else if stop then Stopped else Waiting))
    case Syncing(stop) =>
      if s.appendMutex == None then Some(s.(appendMutex := Some(Syncer), syncer := Locked(stop))) else None
    case Locked(stop) => Some(s.(synced := s.written, syncer := Synced(stop)))
    case Synced(stop) => Some(s.(appendMutex := None, syncer := if stop then Stopped else Waiting))
    case Stopped => None
  }

  ghost predicate AllIdle(s: State) { forall t :: t in s.callers ==> s.callers[t] == Idle }

  /** The destructor starts when no call is in progress. */
  ghost function DestructorStep(s: State): Option<State> {
    match s.destructor
    case Running => if AllIdle(s) then Some(s.(destructor := if s.interval == 0 then Joining else Stopping)) else None
    case Stopping => if s.syncMutex == None then Some(s.(syncMutex := Some(Destructor), destructor := StopHeld))
        else None
    case StopHeld => Some(s.(stop := true, destructor := StopSet))
    case StopSet => Some(s.(syncMutex := None, destructor := Joining))
    case Joining =>
      if s.syncer in {Absent, Stopped} && s.appendMutex == None
      then Some(s.(appendMutex := Some(Destructor), destructor := FinalHeld)) else None
    case FinalHeld => Some(s.(synced := s.written, appendMutex := None, destructor := Closed))
    case Closed => None
  }

  ghost predicate Next(s: State, s': State) {
    || (exists t, call :: t in s.callers && CallerStep(s, t, call) == Some(s'))
    || SyncerStep(s) == Some(s')
    || DestructorStep(s) == Some(s')
  }

  ghost predicate IsRun(run: seq<State>) {
    |run| >= 1 && Init(run[0]) && forall i :: 0 <= i < |run| - 1 ==> Next(run[i], run[i + 1])
  }

  // ---------------------------------------------------------------- invariant

  predicate HoldsAppend(pc: CallerPc) {
    pc.AppendHeld? || pc.Wrote? || pc.ResetHeld? || pc.Truncated? || pc.TruncatedHeld? || pc.Cleared?
    || pc.SyncHeld? || pc.SyncDone?
  }

  predicate HoldsSync(pc: CallerPc) { pc.MarkHeld? || pc.Marked? || pc.TruncatedHeld? || pc.Cleared? }

  /** Each mutex is held by whoever is between its lock and its unlock. */
  ghost predicate MutexesOk(s: State) {
    && (forall t :: t in s.callers ==> (HoldsAppend(s.callers[t]) <==> s.appendMutex == Some(Caller(t))))
    && (forall t :: t in s.callers ==> (HoldsSync(s.callers[t]) <==> s.syncMutex == Some(Caller(t))))
    && (forall t :: Some(Caller(t)) in [s.appendMutex, s.syncMutex] ==> t in s.callers)
    && (s.syncer.Locked? || s.syncer.Synced? <==> s.appendMutex == Some(Syncer))
    && (s.syncer.Reading? || s.syncer.Decided? <==> s.syncMutex == Some(Syncer))
    && (s.destructor == FinalHeld <==> s.appendMutex == Some(Destructor))
    && (s.destructor in {StopHeld, StopSet} <==> s.syncMutex == Some(Destructor))
  }

  /** The syncer has taken over a dirty flag and its fsync is still to come. */
  predicate SyncerOwes(pc: SyncerPc) {
    (pc.Decided? && pc.sync) || pc.Syncing? || pc.Locked?
  }

  /** The caller has written a record and not yet marked the log dirty or synced it. */
  predicate MarkPending(pc: CallerPc) { pc.Wrote? || pc.Unmarked? || pc.MarkHeld? }

  ghost predicate SomeMarkPending(callers: map<Tid, CallerPc>) {
    exists t :: t in callers && MarkPending(callers[t])
  }

  ghost predicate FlagsOk(s: State) {
    && s.truncated <= s.synced <= s.written
    && (s.interval == 0 <==> s.syncer == Absent) && (s.interval == 0 ==> !s.dirty)
    && (s.synced < s.written ==> s.dirty || SyncerOwes(s.syncer) || SomeMarkPending(s.callers))
  }

  ghost predicate CallersOk(s: State) {
    forall t :: t in s.callers ==> CallerOk(s, s.callers[t])
  }

  ghost predicate CallerOk(s: State, pc: CallerPc) {
    && (pc in {Truncated, TruncatedHeld, Cleared} ==> s.truncated == s.synced == s.written)
    && (pc == SyncDone ==> s.synced == s.written)
    && (pc.Wrote? || InMark(pc) ==> pc.at < s.written)
    && (pc.Marked? ==> s.dirty) && (pc == Cleared ==> !s.dirty)
    && (s.interval == 0 ==> !pc.MarkHeld? && !pc.Marked?)
    && (s.destructor != Running ==> pc == Idle)
  }

  ghost predicate EndOk(s: State) {
    && (s.interval == 0 ==> forall at :: at in s.returned ==> at < s.synced)
    && (s.destructor in {FinalHeld, Closed} ==> s.syncer in {Absent, Stopped})
    && (s.destructor == Closed ==> s.synced == s.written)
  }

  /** An append that has returned has been synced, or the flag is set, or the syncer has taken it over. */
  ghost predicate ReturnedOk(s: State) {
    forall at :: at in s.returned ==> at < s.written && (at < s.synced || s.dirty || SyncerOwes(s.syncer))
  }

  ghost predicate Inv(s: State) { MutexesOk(s) && FlagsOk(s) && CallersOk(s) && EndOk(s) && ReturnedOk(s) }

  /** What a caller's step means for the other callers. */
  lemma OthersKept(s: State, t: Tid, s': State)
    requires MutexesOk(s) && CallersOk(s) && t in s.callers && t in s'.callers
             && s'.callers == s.callers[t := s'.callers[t]]
    requires s'.interval == s.interval && s'.destructor == s.destructor && s.written <= s'.written
    requires s'.written == s.written || s.appendMutex == Some(Caller(t))
    requires s.synced == s.written && s'.written == s.written ==> s'.synced == s'.written
    requires s'.dirty == s.dirty || s.syncMutex == Some(Caller(t))
    requires s'.truncated == s.truncated || s.appendMutex == Some(Caller(t))
    requires CallerOk(s', s'.callers[t])
    ensures CallersOk(s')
  {
    forall u | u in s'.callers ensures CallerOk(s', s'.callers[u]) {
      assert CallerOk(s, s.callers[u]);
      assert HoldsAppend(s.callers[u]) <==> s.appendMutex == Some(Caller(u));
      assert HoldsSync(s.callers[u]) <==> s.syncMutex == Some(Caller(u));
    }
  }

  /** Callers that stay pending keep a record accounted for. */
  lemma PendingKept(s: State, t: Tid, s': State)
    requires t in s.callers && t in s'.callers && s'.callers == s.callers[t := s'.callers[t]]
    requires MarkPending(s.callers[t]) ==> MarkPending(s'.callers[t])
    ensures SomeMarkPending(s.callers) ==> SomeMarkPending(s'.callers)
    ensures MarkPending(s'.callers[t]) ==> SomeMarkPending(s'.callers)
  {
    if SomeMarkPending(s.callers) {
      var u :| u in s.callers && MarkPending(s.callers[u]);
      assert MarkPending(s'.callers[u]);
    }
  }

  /** A caller's step changes a mutex only by taking it when free or giving up its own. */
  lemma MutexesKept(s: State, t: Tid, s': State)
    requires MutexesOk(s) && t in s.callers && t in s'.callers && s'.callers == s.callers[t := s'.callers[t]]
    requires s'.syncer == s.syncer && s'.destructor == s.destructor
    requires HoldsAppend(s'.callers[t]) <==> s'.appendMutex == Some(Caller(t))
    requires HoldsSync(s'.callers[t]) <==> s'.syncMutex == Some(Caller(t))
    requires s'.appendMutex == s.appendMutex || {s.appendMutex, s'.appendMutex} == {None, Some(Caller(t))}
    requires s'.syncMutex == s.syncMutex || {s.syncMutex, s'.syncMutex} == {None, Some(Caller(t))}
    ensures MutexesOk(s')
  {
    assert s'.appendMutex == s.appendMutex || s.appendMutex in {None, Some(Caller(t))};
    assert s'.appendMutex == s.appendMutex || s'.appendMutex in {None, Some(Caller(t))};
    assert s'.syncMutex == s.syncMutex || s.syncMutex in {None, Some(Caller(t))};
    assert s'.syncMutex == s.syncMutex || s'.syncMutex in {None, Some(Caller(t))};
  }

  lemma CallerAt(s: State, t: Tid)
    requires CallersOk(s) && MutexesOk(s) && t in s.callers
    ensures CallerOk(s, s.callers[t])
    ensures HoldsAppend(s.callers[t]) <==> s.appendMutex == Some(Caller(t))
    ensures HoldsSync(s.callers[t]) <==> s.syncMutex == Some(Caller(t))
  {
  }

  lemma EndKept(s: State, s': State)
    requires EndOk(s) && s'.interval == s.interval && s'.returned == s.returned && s.synced <= s'.synced
    requires s'.syncer == s.syncer && s'.destructor == s.destructor
             && (s.synced == s.written ==> s'.synced == s'.written)
    ensures EndOk(s')
  {
  }

  lemma InvAppend(s: State, t: Tid, s': State)
    requires Inv(s) && t in s.callers && AppendStep(s, t) == Some(s')
    ensures Inv(s')
  {
    hide SomeMarkPending, SyncerOwes, CallersOk, MutexesOk;
    CallerAt(s, t);
    if MarkPending(s.callers[t]) ==> MarkPending(s'.callers[t]) { PendingKept(s, t, s'); }
    OthersKept(s, t, s');
    MutexesKept(s, t, s');
  }

  lemma InvMark(s: State, t: Tid, s': State)
    requires Inv(s) && t in s.callers && MarkStep(s, t) == Some(s')
    ensures Inv(s')
  {
    hide SomeMarkPending, SyncerOwes, CallersOk, MutexesOk;
    CallerAt(s, t);
    if MarkPending(s.callers[t]) ==> MarkPending(s'.callers[t]) { PendingKept(s, t, s'); }
    OthersKept(s, t, s');
    MutexesKept(s, t, s');
  }

  lemma InvReset(s: State, t: Tid, s': State)
    requires Inv(s) && t in s.callers && ResetStep(s, t) == Some(s')
    ensures Inv(s')
  {
    hide SomeMarkPending, SyncerOwes, CallersOk, MutexesOk;
    CallerAt(s, t);
    PendingKept(s, t, s');
    OthersKept(s, t, s');
    MutexesKept(s, t, s');
  }

  lemma InvOther(s: State, t: Tid, call: CallerPc, s': State)
    requires Inv(s) && t in s.callers && OtherStep(s, t, call) == Some(s')
    ensures Inv(s')
  {
    if s.callers[t] == Idle {
      InvStart(s, t, call, s');
    } else {
      hide SomeMarkPending, SyncerOwes, CallersOk, MutexesOk, EndOk;
      CallerAt(s, t);
      PendingKept(s, t, s');
      OthersKept(s, t, s');
      MutexesKept(s, t, s');
      EndKept(s, s');
    }
  }

  lemma InvStart(s: State, t: Tid, call: CallerPc, s': State)
    requires Inv(s) && t in s.callers && s.callers[t] == Idle && OtherStep(s, t, call) == Some(s')
    ensures Inv(s')
  {
    hide SomeMarkPending, SyncerOwes, CallersOk, MutexesOk, EndOk;
    CallerAt(s, t);
    PendingKept(s, t, s');
    OthersKept(s, t, s');
    MutexesKept(s, t, s');
    EndKept(s, s');
  }

  lemma InvCaller(s: State, t: Tid, call: CallerPc, s': State)
    requires Inv(s) && t in s.callers && CallerStep(s, t, call) == Some(s')
    ensures Inv(s')
  {
    hide Inv, AppendStep, MarkStep, ResetStep, OtherStep;
    if InMark(s.callers[t]) {
      InvMark(s, t, s');
    } else if InAppend(s.callers[t]) {
      InvAppend(s, t, s');
    } else if InReset(s.callers[t]) {
      InvReset(s, t, s');
    } else {
      InvOther(s, t, call, s');
    }
  }

  /** A step of the thread or the destructor leaves what the callers know. */
  lemma SameCallers(s: State, s': State)
    requires CallersOk(s) && s'.callers == s.callers && s'.written == s.written && s'.interval == s.interval
    requires s'.synced in {s.synced, s.written}
             && (s'.destructor == s.destructor || s.destructor != Running || AllIdle(s))
    requires MutexesOk(s) && s'.truncated == s.truncated && (s'.dirty == s.dirty || s.syncMutex == Some(Syncer))
    ensures CallersOk(s')
  {
    forall t | t in s'.callers ensures CallerOk(s', s'.callers[t]) {
      assert CallerOk(s, s.callers[t]);
      assert HoldsSync(s.callers[t]) <==> s.syncMutex == Some(Caller(t));
    }
  }

  lemma InvSyncer(s: State, s': State)
    requires Inv(s) && SyncerStep(s) == Some(s')
    ensures Inv(s')
  {
    assert MutexesOk(s');
    hide MutexesOk, SomeMarkPending, CallersOk;
    SameCallers(s, s');
  }

  lemma InvDestructor(s: State, s': State)
    requires Inv(s) && DestructorStep(s) == Some(s')
    ensures Inv(s')
  {
    DestructorMutexes(s, s');
    hide MutexesOk, SomeMarkPending, CallersOk, AllIdle;
    SameCallers(s, s');
  }

  lemma DestructorMutexes(s: State, s': State)
    requires MutexesOk(s) && DestructorStep(s) == Some(s')
    ensures MutexesOk(s')
  {
    hide AllIdle;
  }

  lemma InvInit(s: State)
    requires Init(s)
    ensures Inv(s)
  {
  }

  lemma {:induction false} RunInv(run: seq<State>, i: nat)
    requires IsRun(run) && i < |run|
    ensures Inv(run[i])
  {
    hide Inv, Init;
    if i == 0 {
      InvInit(run[0]);
    } else {
      RunInv(run, i - 1);
      var s, s' := run[i - 1], run[i];
      assert Next(s, s');
      if t, call :| t in s.callers && CallerStep(s, t, call) == Some(s') {
        InvCaller(s, t, call, s');
      } else if SyncerStep(s) == Some(s') {
        InvSyncer(s, s');
      } else {
        InvDestructor(s, s');
      }
    }
  }

  // ------------------------------------------------------------------ results

  /**
   * Background sync never forgets a record: in every reachable state an unsynced
   * record means that the flag is set, or the background thread has taken the flag
   * over and still owes its fsync, or some append has yet to set the flag.
   */
  lemma NothingForgotten(run: seq<State>, i: nat)
    requires IsRun(run) && i < |run|
    ensures run[i].synced < run[i].written ==>
              run[i].dirty || SyncerOwes(run[i].syncer) || SomeMarkPending(run[i].callers)
  {
    hide Next, MutexesOk, CallersOk, SyncerOwes, SomeMarkPending;
    RunInv(run, i);
  }

  /** After the destructor every record ever appended has been synced, and no thread is left to sync. */
  lemma ClosedIsSynced(run: seq<State>, i: nat)
    requires IsRun(run) && i < |run| && run[i].destructor == Closed
    ensures run[i].synced == run[i].written && run[i].syncer in {Absent, Stopped}
  {
    hide Next, MutexesOk, CallersOk;
    RunInv(run, i);
  }

  /** With interval 0 an append that has returned is durable. */
  lemma ImmediateSync(run: seq<State>, i: nat, at: nat)
    requires IsRun(run) && i < |run| && run[i].interval == 0 && at in run[i].returned
    ensures at < run[i].synced
  {
    hide Next, MutexesOk, CallersOk;
    RunInv(run, i);
  }

  /** An explicit Sync that is about to return has synced everything written. */
  lemma ExplicitSync(run: seq<State>, i: nat, t: Tid)
    requires IsRun(run) && i < |run| && t in run[i].callers && run[i].callers[t] == SyncDone
    ensures run[i].synced == run[i].written
  {
    hide Next, MutexesOk, FlagsOk;
    RunInv(run, i);
    assert CallerOk(run[i], run[i].callers[t]);
  }

  /** A Reset that is about to return has taken every record out of the file and left nothing to sync. */
  lemma ResetEmpties(run: seq<State>, i: nat, t: Tid)
    requires IsRun(run) && i < |run| && t in run[i].callers && run[i].callers[t] == Cleared
    ensures run[i].truncated == run[i].synced == run[i].written && !run[i].dirty
  {
    hide Next, MutexesOk, FlagsOk;
    RunInv(run, i);
    assert CallerOk(run[i], run[i].callers[t]);
  }

  /** Callers leave the syncer alone; synced, written and returned only grow. */
  ghost predicate Onward(s: State, s': State) {
    s'.syncer == s.syncer && s.synced <= s'.synced && s.written <= s'.written && s.returned <= s'.returned
  }

  lemma CallerOnward(s: State, t: Tid, call: CallerPc, s': State)
    requires s.synced <= s.written && t in s.callers && CallerStep(s, t, call) == Some(s')
    ensures Onward(s, s')
  {
    hide AppendStep, MarkStep, ResetStep, OtherStep;
    if InMark(s.callers[t]) {
      assert Onward(s, s') by { MarkOnward(s, t, s'); }
    } else if InAppend(s.callers[t]) {
      assert Onward(s, s') by { AppendOnward(s, t, s'); }
    } else if InReset(s.callers[t]) {
      assert Onward(s, s') by { ResetOnward(s, t, s'); }
    } else {
      assert Onward(s, s') by { OtherOnward(s, t, call, s'); }
    }
  }

  lemma MarkOnward(s: State, t: Tid, s': State)
    requires s.synced <= s.written && t in s.callers && MarkStep(s, t) == Some(s')
    ensures Onward(s, s')
  {
  }

  lemma AppendOnward(s: State, t: Tid, s': State)
    requires t in s.callers && AppendStep(s, t) == Some(s')
    ensures Onward(s, s')
  {
  }

  lemma ResetOnward(s: State, t: Tid, s': State)
    requires s.synced <= s.written && t in s.callers && ResetStep(s, t) == Some(s')
    ensures Onward(s, s')
  {
  }

  lemma OtherOnward(s: State, t: Tid, call: CallerPc, s': State)
    requires s.synced <= s.written && t in s.callers && OtherStep(s, t, call) == Some(s')
    ensures Onward(s, s')
  {
  }

  /** Synced stays synced, and what the syncer owes it pays. */
  lemma OwedStep(s: State, s': State, at: nat)
    requires Inv(s) && Next(s, s') && at < s.written && (at < s.synced || SyncerOwes(s.syncer))
    ensures at < s'.written && (at < s'.synced || SyncerOwes(s'.syncer))
  {
    hide MutexesOk, CallersOk, AllIdle, CallerStep, ReturnedOk, EndOk;
    if t, call :| t in s.callers && CallerStep(s, t, call) == Some(s') {
      CallerOnward(s, t, call, s');
    } else if SyncerStep(s) == Some(s') {
      assert s.synced <= s.written;
    } else {
      assert DestructorStep(s) == Some(s') && s.synced <= s.written;
    }
  }

  /** The thread takes the flag over when it reads it. */
  lemma TakesOver(s: State, s': State, at: nat)
    requires Inv(s) && Next(s, s') && s.syncer == Reading && at in s.returned
    ensures s'.syncer == Reading || at < s'.synced || SyncerOwes(s'.syncer)
    ensures at < s'.written && at in s'.returned
  {
    hide MutexesOk, CallersOk, AllIdle, CallerStep, EndOk;
    if t, call :| t in s.callers && CallerStep(s, t, call) == Some(s') {
      CallerOnward(s, t, call, s');
    } else if SyncerStep(s) == Some(s') {
      assert s'.syncer == Decided(s.stop, s.dirty);
    } else {
      assert DestructorStep(s) == Some(s');
    }
  }

  lemma {:induction false} OwedSince(run: seq<State>, i: nat, j: nat, at: nat)
    requires IsRun(run) && i <= j < |run| && run[i].syncer == Reading && at in run[i].returned
    ensures at < run[j].written
    ensures (run[j].syncer == Reading && at in run[j].returned) || at < run[j].synced || SyncerOwes(run[j].syncer)
    decreases j
  {
    hide Next, Inv, SyncerOwes, Init;
    RunInv(run, j);
    if i == j {
      ReturnedWritten(run[i], at);
    } else {
      OwedSince(run, i, j - 1, at);
      RunInv(run, j - 1);
      assert Next(run[j - 1], run[j]);
      if at < run[j - 1].synced || SyncerOwes(run[j - 1].syncer) {
        OwedStep(run[j - 1], run[j], at);
      } else {
        TakesOver(run[j - 1], run[j], at);
      }
    }
  }

  lemma ReturnedWritten(s: State, at: nat)
    requires Inv(s) && at in s.returned
    ensures at < s.written
  {
    hide MutexesOk, CallersOk, FlagsOk, EndOk;
  }

  /**
   * One turn of the background thread syncs: every append that had returned when the thread
   * was about to read the flag is synced by the time it waits again or has stopped.
   */
  lemma TurnSyncs(run: seq<State>, i: nat, j: nat, at: nat)
    requires IsRun(run) && i < j < |run| && run[i].syncer == Reading && at in run[i].returned
    requires run[j].syncer in {Waiting, Stopped}
    ensures at < run[j].synced
  {
    hide Next, Init;
    OwedSince(run, i, j, at);
  }

  /** Clearing the flag in Reset cannot lose a record: nothing is unsynced at that moment. */
  lemma ResetClearsNothing(run: seq<State>, i: nat, t: Tid)
    requires IsRun(run) && i < |run| && t in run[i].callers && run[i].callers[t] == TruncatedHeld
    ensures run[i].synced == run[i].written
  {
    hide Next, MutexesOk, FlagsOk;
    RunInv(run, i);
    assert CallerOk(run[i], run[i].callers[t]);
  }

  predicate CanStep(s: State, h: Holder) {
    match h
    case Caller(t) => t in s.callers && CallerStep(s, t, AppendWanted).Some?
    case Syncer => SyncerStep(s).Some?
    case Destructor => s.destructor in {StopHeld, StopSet, FinalHeld}
  }

  /** No deadlock: whoever holds sync_mutex_ can go on, and whoever holds append_mutex_
      can go on or waits for a holder of sync_mutex_ that can. */
  lemma HolderCanStep(run: seq<State>, i: nat, h: Holder)
    requires IsRun(run) && i < |run|
    ensures run[i].syncMutex == Some(h) ==> CanStep(run[i], h)
    ensures run[i].appendMutex == Some(h) ==>
      CanStep(run[i], h) || (run[i].syncMutex.Some? && CanStep(run[i], run[i].syncMutex.value))
  {
    hide Next, FlagsOk, CallersOk;
    RunInv(run, i);
    var s := run[i];
    SyncHolderCanStep(s);
    if s.appendMutex == Some(h) && h.Caller? {
      assert Some(h) in [s.appendMutex, s.syncMutex];
      assert HoldsAppend(s.callers[h.tid]);
    }
  }

  lemma SyncHolderCanStep(s: State)
    requires MutexesOk(s)
    ensures s.syncMutex.Some? ==> CanStep(s, s.syncMutex.value)
  {
    if s.syncMutex.Some? && s.syncMutex.value.Caller? {
      assert s.syncMutex in [s.appendMutex, s.syncMutex];
      assert HoldsSync(s.callers[s.syncMutex.value.tid]);
    }
  }

  /** Whoever waits does so for a mutex that somebody holds; the destructor also waits for the thread. */
  lemma WaitsForHolder(s: State, t: Tid)
    requires t in s.callers ==> s.callers[t] != Idle
    ensures t in s.callers && CallerStep(s, t, AppendWanted) == None ==>
              || (s.callers[t] in {AppendWanted, ResetWanted, SyncWanted} && s.appendMutex.Some?)
              || ((s.callers[t] == Truncated || s.callers[t].Unmarked?) && s.syncMutex.Some?)
    ensures SyncerStep(s) == None ==>
              || s.syncer in {Absent, Stopped} || (s.syncer == Waiting && s.syncMutex.Some?)
              || (s.syncer.Syncing? && s.appendMutex.Some?)
    ensures DestructorStep(s) == None ==>
              || s.destructor == Closed || (s.destructor == Running && !AllIdle(s))
              || (s.destructor == Stopping && s.syncMutex.Some?)
              || (s.destructor == Joining && (s.syncer !in {Absent, Stopped} || s.appendMutex.Some?))
  {
    hide AllIdle;
  }

  ghost predicate Turns(t: seq<State>, s: State) {
    && |t| >= 1 && t[0] == s
    && forall k :: 0 <= k < |t| - 1 ==> SyncerStep(t[k]) == Some(t[k + 1])
  }

  /** A turn that nobody disturbs takes the flag away and, if it was set, syncs everything written. */
  lemma QuietTurn(s: State) returns (t: seq<State>)
    requires s.syncer == Waiting && s.syncMutex == None && s.appendMutex == None
    ensures Turns(t, s)
    ensures var last := t[|t| - 1];
            && last.syncer == (if s.stop then Stopped else Waiting)
            && last.syncMutex == None && last.appendMutex == None
            && !last.dirty && last.synced == if s.dirty then s.written else s.synced
  {
    var s1 := SyncerStep(s).value;
    var s2 := SyncerStep(s1).value;
    var s3 := SyncerStep(s2).value;
    t := [s, s1, s2, s3];
    if s.dirty {
      var s4 := SyncerStep(s3).value;
      var s5 := SyncerStep(s4).value;
      var s6 := SyncerStep(s5).value;
      t := [s, s1, s2, s3, s4, s5, s6];
    }
  }

  // --------------------------------------------------------------- power loss

  /** The log file holds the records appended since the last truncation. Power loss leaves
      any prefix of it that contains what an fsync has made durable. */
  ghost predicate LeftByPowerLoss(s: State, appended: seq<Entry>, left: Bytes) {
    && s.truncated <= s.synced <= s.written == |appended|
    && var durable, file := appended[s.truncated..s.synced], appended[s.truncated..];
       EntriesOk(durable) && EntriesOk(file) && EncodeAll(durable) <= left <= EncodeAll(file)
  }

  /** Replay yields the record of position `at` in its place. */
  ghost predicate Replays(left: Bytes, place: nat, record: LogRecord) {
    var o := Replay(left);
    o.Replayed? && place < |o.applied| && o.applied[place] == record
  }

  /** Power loss at any time: replay does not throw, and every record at a synced position
      that Reset has not taken out of the file is replayed, in its place. */
  lemma SyncedReplayed(s: State, appended: seq<Entry>, left: Bytes, at: nat)
    requires LeftByPowerLoss(s, appended, left) && s.truncated <= at < s.synced
    ensures Replays(left, at - s.truncated, appended[at].record)
  {
    hide EncodeAll, Replay;
    var durable, file := appended[s.truncated..s.synced], appended[s.truncated..];
    var m := |EncodeAll(durable)|;
    assert file == durable + appended[s.synced..];
    assert left == EncodeAll(file)[..|left|];
    WholePart(durable, appended[s.synced..]);
    SyncedSurvive(file, m, |left|);
    RecordAt(durable, at - s.truncated);
    RecordsPrefix(durable, Whole(file, m));
  }

  /** With interval 0 the record of an append that has returned survives power loss, in every
      interleaving, until a Reset takes it out of the file. */
  lemma ReturnedSurvives(run: seq<State>, i: nat, appended: seq<Entry>, left: Bytes, at: nat)
    requires IsRun(run) && i < |run| && run[i].interval == 0 && at in run[i].returned && run[i].truncated <= at
    requires LeftByPowerLoss(run[i], appended, left)
    ensures at < |appended| && Replays(left, at - run[i].truncated, appended[at].record)
  {
    hide IsRun, EncodeAll, Replays;
    ImmediateSync(run, i, at);
    SyncedReplayed(run[i], appended, left, at);
  }

  /** With any interval it survives power loss from the end of the next turn of the background thread on. */
  lemma TurnSurvives(run: seq<State>, i: nat, j: nat, appended: seq<Entry>, left: Bytes, at: nat)
    requires IsRun(run) && i < j < |run| && run[i].syncer == Reading && at in run[i].returned
    requires run[j].syncer in {Waiting, Stopped} && run[j].truncated <= at
    requires LeftByPowerLoss(run[j], appended, left)
    ensures at < |appended| && Replays(left, at - run[j].truncated, appended[at].record)
  {
    hide IsRun, EncodeAll, Replays;
    TurnSyncs(run, i, j, at);
    SyncedReplayed(run[j], appended, left, at);
  }

  /** And after the destructor every record in the file does. */
  lemma ClosedSurvives(run: seq<State>, i: nat, appended: seq<Entry>, left: Bytes)
    requires IsRun(run) && i < |run| && run[i].destructor == Closed && LeftByPowerLoss(run[i], appended, left)
    ensures forall at: nat :: run[i].truncated <= at < |appended| ==>
              Replays(left, at - run[i].truncated, appended[at].record)
  {
    hide IsRun, EncodeAll, Replays;
    ClosedIsSynced(run, i);
    forall at: nat | run[i].truncated <= at < |appended|
      ensures Replays(left, at - run[i].truncated, appended[at].record)
    {
      SyncedReplayed(run[i], appended, left, at);
    }
  }

  /** The entries wholly inside the encoding of the first of them are those. */
  lemma {:induction false} WholePart(a: seq<Entry>, b: seq<Entry>)
    requires EntriesOk(a) && EntriesOk(b) && EntriesOk(a + b)
    ensures a <= Whole(a + b, |EncodeAll(a)|)
    decreases |a|
  {
    hide EncodeEntry;
    if a != [] {
      assert (a + b)[1..] == a[1..] + b;
      WholePart(a[1..], b);
      assert a == [a[0]] + a[1..];
    }
  }

  lemma {:induction false} RecordAt(es: seq<Entry>, k: nat)
    requires k < |es|
    ensures k < |Records(es)| && Records(es)[k] == es[k].record
    decreases |es|
  {
    if k > 0 { RecordAt(es[1..], k - 1); }
  }
}
