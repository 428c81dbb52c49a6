# Verification of a log-structured key-value store

This project models the store of the repository in Dafny 4.11 and proves what it is for. All modules are under `src/`; `dafny verify dfyconfig.toml` checks everything.

The system has three parts, and the model follows them.

**The skip list** (`include/kvstore/SkipList.hpp`) is modelled twice.
`SkipListMachine` is a step model of the concurrent algorithm: the state is a heap of node records and a program counter with local variables per thread, and every load, store, lock and unlock of `Put`, `Get`, `Delete`, `Scan` and `Snapshot` is one step, interleaved with those of any number of other threads in any order. `SkipListHeap`, `SkipListThreads`, `SkipListSteps`, `SkipListHistory`, `SkipListSafety`, `SkipListCalls` and `SkipListTheorems` build one inductive invariant; `SkipListResults`, `SkipListReaders`, `SkipListRanges`, `SkipListProgress`, `SkipListLone`, `SkipListLevels` and `SkipListReturns` state what it means to a caller; `SkipListRace` and `SkipListStale` are runs, made of the steps in `SkipListMoves`, that show where it falls short.
`SkipList.dfy` is the same class run by one caller, with nodes that are objects updated in place; it refines a plain map for any levels drawn, and `MapStore.dfy` proves that it agrees with the ordered map the benchmark compares it with.

**Durability** (`src/WAL.cpp`, `src/kvstore.cpp`). `Fnv` and `WalFormat` specify the checksum and the log format on bytes, `WalFile` holds the read and write loops over a file that transfers as little as it likes, `WalSync` is the background sync protocol as a step model, `SnapshotFormat` and `Recovery` say what opening a store makes of its files, `Durability` is the state machine of runs cut by crashes, and `KvStore.dfy` is the store as a class whose `trace` records every state its files ever have.

**The protocol and the server** (`src/Protocol.cpp`, `src/Server.cpp`, `EncodeResp` in `src/client_main.cpp`). `RespFormat` and `RequestCodec` specify and implement the incremental decoder for arrays of bulk strings, with the exact behaviour of strtoul and of 64-bit positions, and the encoder; `RespGrammar` says which bytes are a request without mentioning the decoder; `Command` is the command processor, and `CommandLaws` says what each command does in terms of the tokens of a request and literal answers alone; `ServerHistory` and `Server` are the reactor with its connections, partial reads and partial writes.

Seven things the proofs show about the code may surprise its reader.

- A torn tail is skipped at start but stays in the file, and new records go behind it. `Durability.AppendBehindTornTail` shows that they are replayed if and only if there was no such tail, which is what `skipped_tail_bytes == 0` says; `Durability.AppendedLost` shows what happens otherwise. `Durability` therefore admits updates only on a log without a torn tail; a checkpoint makes the log whole again.
- The state of the snapshot stream is looked at before it is closed, not after. When closing it cannot write the rest of its buffer, the short file is renamed over the good one, the log is emptied and the checkpoint reports success; the store then does not start again (`KvStores.ShortSnapshot`, `Durability.CheckpointLost`). `Durability.CrashSafe` and `KvStores.KVStore.Checkpoint` show that this is the only way in which a checkpoint loses anything.
- A bulk length such as `-2` is accepted and wraps, so that the token depends on how the stream was cut (`RespFormat.WrappedLength`). `RequestCodecs.WrapsMatter` shows that this is the exact condition.
- When the decoder throws, requests that became complete with the same chunk are lost. `ServerHistory.ExecutedInOrder` says exactly which, and `ServerHistory.RequestLost` gives the input.
- A concurrent Get can miss a key that is present throughout its call: `SkipListRace.GetCanMiss` is such a run. `SkipListRanges.GetExact` gives the exact condition, that the node it loads after its search lies below its key, and shows that this takes a Put of a smaller key, linked during the call.
- A concurrent Scan can answer a key below its start, since it reloads the pointer in the same way: `SkipListRace.ScanCanStray` is such a run, and `SkipListRanges.RangedExact` shows that it, too, takes a smaller key linked during the call.
- A recompute of `current_level_` can overwrite a racing raise. While it stays below the height of two nodes, a Delete of the second of them, running alone, can never succeed, because its search takes the head as the predecessor at the upper levels: `SkipListStale.DeleteLivelocks` is such a run, and `SkipListLone.LoneDelete` and `SkipListLone.LonePut` give the exact conditions. It takes overlapping calls: `SkipListLevels.SequentialFits` shows that the level is never too low otherwise, and `SkipListReturns.CallsReturn` that every call then returns.

Assumptions: sequentially consistent atomics; a little-endian host, on which header fields are stored byte by byte; `rename` is atomic; a process crash keeps what was written, while power loss is considered for the log only.

## Model

| member | source | states |
|---|---|---|
| SkipListResults.LevelsAreChains | include/kvstore/SkipList.hpp:43-167 | In every reachable state of any number of interleaved calls, each level has a chain from the head to null; it is strictly key-ordered, visits exactly the nodes linked at the level, hence a subset of the level below, every live node that is tall enough and every unmarked node already linked there, and whatever else it visits is being linked or unlinked right now |
| SkipListResults.PointersAscend | include/kvstore/SkipList.hpp:154-163 | Every forward pointer of every node allocated since the last Clear, also of an unlinked one, is null or leads to an owned node with a strictly larger key |
| SkipListResults.MarkedFrozen | include/kvstore/SkipList.hpp:154-163 | Once marked, a node stays owned and marked and its forward pointers never change until Clear |
| SkipListResults.StepsAreSpecSteps | include/kvstore/SkipList.hpp:50-95 | With the map defined by the fully linked unmarked nodes, every step changes it as the call of the acting thread specifies, with the answer that thread will return, or clears it, or does not change it |
| SkipListResults.LogExplainsContents | include/kvstore/SkipList.hpp:43-167 | The changes of a run, in the order in which they took effect, are a legal sequential history of the map and end in its current contents |
| SkipListResults.UpdatesLinearize | include/kvstore/SkipList.hpp:43-167 | Every returned Put and every Delete that returned true has exactly one change in that history, made between its call and its return and carrying its answer; a Delete that returned false ran while its key was absent at some moment of the call |
| SkipListResults.ReadersHonest | include/kvstore/SkipList.hpp:98-222 | Under any interleaving, what Get, Scan and Snapshot return is strictly key-ordered, each pair was in the map with that value at some moment of the call, Scan returns nothing above its end, and Get returns its own key |
| SkipListReaders.ReadersComplete | include/kvstore/SkipList.hpp:169-222 | Under any interleaving, Snapshot answers every key, and Scan every key from its start to its end, that is in the map throughout the call |
| SkipListRanges.GetExact | include/kvstore/SkipList.hpp:98-120 | A Get whose key is in the map throughout the call answers false if and only if the node it loads after its search lies below the key, and it does so only if a smaller key was linked at the bottom level during the call |
| SkipListRanges.RangedExact | include/kvstore/SkipList.hpp:169-201 | If no smaller key is linked at the bottom level during the call, a Get that answers false ran while its key was absent at some moment, and a Scan answers no key below its start |
| SkipListRanges.LinksArePuts | include/kvstore/SkipList.hpp:87-89 | A smaller key is linked at the bottom level by nothing but the link step of a Put of that key |
| SkipListRanges.StillPast | include/kvstore/SkipList.hpp:333-336 | The next pointer of a node at which a search has ended, unlinked since or not, turns below the key only in a step that links a smaller key |
| SkipListReaders.NeverPast | include/kvstore/SkipList.hpp:154-163 | The pointer of a node met during a call, also of one unlinked and frozen since, never leads past a node that stays live |
| SkipListRace.GetCanMiss | include/kvstore/SkipList.hpp:323-340 | A run of two threads in which Get answers false although its key is in the map from before the call until after it |
| SkipListRace.ScanCanStray | include/kvstore/SkipList.hpp:173-198 | A run of two threads in which Scan(b, b) answers a smaller key |
| SkipListResults.PairsAreContents | include/kvstore/SkipList.hpp:105-119 | There is at most one live node per key; being live with a value is membership in the abstract map |
| SkipListResults.SizeExactWhenIdle | include/kvstore/SkipList.hpp:91-92 | `size_` is the number of live nodes mod 2^64, minus threads between `fully_linked` and `fetch_add`, plus threads between `marked` and `fetch_sub`, hence exact when no call is in flight |
| SkipListProgress.WaitsAscend | include/kvstore/SkipList.hpp:276-288 | A thread that waits for a mutex held by a thread that itself waits, waits for a smaller address: the sorted acquisition order |
| SkipListProgress.NoWaitCycle | include/kvstore/SkipList.hpp:276-288 | In no reachable state does a thread wait, through any chain of others, for itself |
| SkipListProgress.SomeHolderCanStep | include/kvstore/SkipList.hpp:276-288 | Whenever some node mutex is held, a thread that holds one can take its next step |
| SkipListProgress.NeverStuck | include/kvstore/SkipList.hpp:43-222 | Every thread that is not at a lock can always take its next step: no null dereference, no index out of range at any load or store |
| SkipListLone.LoneUpdate | include/kvstore/SkipList.hpp:43-167 | An update that runs alone never tries again if `current_level_` is not below a level in use when it starts |
| SkipListLone.LoneDelete | include/kvstore/SkipList.hpp:122-147 | A Delete of a key in the map that runs alone never tries again if the head leads to the victim at every level of it from `current_level_` up; otherwise it never returns and the key stays |
| SkipListLone.LonePut | include/kvstore/SkipList.hpp:43-75 | A Put that runs alone tries again only if its key is absent and the head leads somewhere at a level from `current_level_` up that the height drawn needs, and an attempt that allocates has found that it does not |
| SkipListStale.DeleteLivelocks | include/kvstore/SkipList.hpp:403-410 | A run of two threads, in which a recompute overwrites a racing raise, after which a Delete of a key in the map, alone, never returns |
| SkipListLevels.SequentialFits | include/kvstore/SkipList.hpp:393-410 | In a run whose calls do not overlap, `current_level_` is never below a level in use while no call is in flight |
| SkipListLevels.SequentialUpdates | include/kvstore/SkipList.hpp:43-167 | In such a run no Put and no Delete ever tries again |
| SkipListReturns.CallsReturn | include/kvstore/SkipList.hpp:43-222 | In an endless run whose calls do not overlap every call returns, if its compare-and-swap does not fail spuriously |
| SkipListReturns.StepFalls | include/kvstore/SkipList.hpp:43-222 | Under any interleaving, each step of a call that is neither a new attempt nor a spurious failure ends it or lowers its rank: what is left of its search, mutexes, levels and walk |
| SkipListReturns.LoneCanStep | include/kvstore/SkipList.hpp:43-222 | A call that runs alone can always take its next step, locks included |
| SkipListLevels.RecomputeSaw | include/kvstore/SkipList.hpp:403-410 | Under any interleaving, from the level up that a recompute stores, it has seen the head lead nowhere, level by level, and just below that level it has seen it lead somewhere, or the level is 1 |
| SkipListLevels.RaiseReaches | include/kvstore/SkipList.hpp:393-401 | Under any interleaving, a raise does not end before `current_level_` has been above the new node at some moment of it |
| SkipListLevels.StepFlows | include/kvstore/SkipList.hpp:43-222 | Every step goes where the control flow allows; only the link and unlink stores change the pointers of the head, only the end of a raise and of a recompute change `current_level_` |
| SkipListTheorems.Reachable | include/kvstore/SkipList.hpp:43-246 | The whole invariant (heap, what each thread knows at each program point, history, size account) holds in every state of every run, Clear included |
| SkipListHeap.LockEffect | include/kvstore/SkipList.hpp:282-286 | Taking a node mutex keeps the heap invariant and what every other thread relies on |
| SkipListHeap.UnlockEffect | include/kvstore/SkipList.hpp:282-287 | So does releasing one, for a thread with nothing half linked |
| SkipListHeap.AllocEffect | include/kvstore/SkipList.hpp:76-85 | So does allocating and owning a node that points at the validated successors |
| SkipListHeap.LinkEffect | include/kvstore/SkipList.hpp:87-89 | So does each store that links a new node one level up |
| SkipListHeap.SetLinkedEffect | include/kvstore/SkipList.hpp:91 | So does setting `fully_linked` on a node linked at all its levels |
| SkipListHeap.WriteEffect | include/kvstore/SkipList.hpp:60 | So does overwriting the value of a locked live node |
| SkipListHeap.MarkEffect | include/kvstore/SkipList.hpp:154 | So does marking a victim whose validated predecessors are locked |
| SkipListHeap.UnlinkEffect | include/kvstore/SkipList.hpp:155-159 | So does each store that bypasses a marked node one level down |
| SkipListThreads.ThreadStable | include/kvstore/SkipList.hpp:342-374 | No step of another thread takes away what a thread knows: validation results survive while the mutexes are held, search results in their weakened form |
| SkipListSteps.SortUniqueSorts | include/kvstore/SkipList.hpp:277-278 | Sorting and deduplicating the nodes to lock gives a strictly ascending list of the same nodes |
| SkipListSteps.AnyStep | include/kvstore/SkipList.hpp:43-222 | Every step of a thread establishes the invariant and the knowledge of its next program point |
| SkipListCalls.GapWitnessed | include/kvstore/SkipList.hpp:301-313 | A gap around the key that a lock-free search sees, even through unlinked nodes, existed at some moment of the call |
| SkipListSafety.UpdateSteps | include/kvstore/SkipList.hpp:154 | The three steps that take effect (value write, `fully_linked`, `marked`) change the map exactly as the call they belong to specifies |
| SkipListIndex.SkipList.Put | include/kvstore/SkipList.hpp:43-96 | For any level drawn, the map gains or overwrites exactly the key, and true means it was new |
| SkipListIndex.SkipList.TryPut | include/kvstore/SkipList.hpp:46-95 | With a single caller one attempt always succeeds: the retry loop runs once |
| SkipListIndex.SkipList.Get | include/kvstore/SkipList.hpp:98-120 | True exactly when the key is present, with its value |
| SkipListIndex.SkipList.Delete | include/kvstore/SkipList.hpp:122-167 | The map loses exactly the key, and true means it was there |
| SkipListIndex.SkipList.TryDelete | include/kvstore/SkipList.hpp:125-166 | With a single caller one attempt always succeeds |
| SkipListIndex.SkipList.Scan | include/kvstore/SkipList.hpp:169-201 | The inclusive range of the map in ascending order, empty when the end is below the start |
| SkipListIndex.SkipList.Snapshot | include/kvstore/SkipList.hpp:203-222 | The whole map in ascending order |
| SkipListIndex.SkipList.Size | include/kvstore/SkipList.hpp:224-227 | The number of keys mod 2^64 |
| SkipListIndex.SkipList.Clear | include/kvstore/SkipList.hpp:233-246 | The map becomes empty and the invariant holds again |
| SkipListIndex.SkipList.constructor | include/kvstore/SkipList.hpp:24-32 | An empty list; a maximum level of 0 becomes 1 |
| SkipListIndex.SkipList.FindNode | include/kvstore/SkipList.hpp:294-321 | At every level the result brackets the key between a node below it and the next one; a found level is reported exactly when the key is present |
| SkipListIndex.SkipList.CanInsert | include/kvstore/SkipList.hpp:342-362 | True exactly when at every level the recorded nodes are unmarked and still adjacent |
| SkipListIndex.SkipList.CanDelete | include/kvstore/SkipList.hpp:364-374 | True exactly when at every level the recorded predecessor is unmarked and still points at the victim |
| SkipListIndex.SkipList.StillNeighbours | include/kvstore/SkipList.hpp:342-362 | With a single caller validation cannot fail after the search |
| SkipListIndex.SkipList.VictimNeighbours | include/kvstore/SkipList.hpp:364-374 | With a single caller the recorded predecessors point at the victim at all its levels |
| SkipListIndex.SkipList.CurrentLevelExact | include/kvstore/SkipList.hpp:393-410 | After every operation `current_level_` is max(1, highest live `top_level` + 1) |
| SkipListLinks.LevelInserted | include/kvstore/SkipList.hpp:393-401 | After a node is linked, the maximum of the old level and its height is again the highest level at which the head leads somewhere |
| SkipListIndex.SkipList.RecomputeCurrentLevel | include/kvstore/SkipList.hpp:403-410 | The level becomes the highest level at which the head leads somewhere, at least 1 |
| SkipListIndex.SkipList.RandomLevel | include/kvstore/SkipList.hpp:376-384 | The level drawn lies between 1 and the maximum; every result about Put holds for any such level |
| SkipListLinks.InsertKeeps | include/kvstore/SkipList.hpp:78-89 | Splicing a node between its brackets at levels 0 to its top keeps every level sorted, nested and complete |
| SkipListLinks.RemoveKeeps | include/kvstore/SkipList.hpp:155-159 | Bypassing a node at all its levels keeps every level sorted, nested and complete |
| SkipListLinks.LevelIsHighest | include/kvstore/SkipList.hpp:403-410 | The highest level at which the head leads somewhere is one above the highest live node |
| MapStores.RunSkipList | include/kvstore/SkipList.hpp:43-246 | Any sequence of Put, Get, Delete, Scan, Size and Clear, with any levels drawn, is answered as the plain map answers it |
| MapStores.RunMapStore | src/compare_benchmark_main.cpp:39-90 | So does the mutex-guarded ordered map of the benchmark |
| MapStores.RunBoth | src/compare_benchmark_main.cpp:39-90 | Driven with the same operations, the skip list and the ordered map give identical answers |
| MapStores.MapStore.Scan | src/compare_benchmark_main.cpp:66-80 | The iterator loop collects exactly the inclusive range in ascending order |
| SortedMap.ListsUnique | include/kvstore/SkipList.hpp:169-222 | A map has exactly one ordered listing, so that the answer to a scan is determined |
| Orders.LexOrder | include/kvstore/SkipList.hpp:19 | The default key order on byte strings is a strict total order |
| Orders.LexMeans | include/kvstore/SkipList.hpp:19 | It puts a string first if and only if it is a proper prefix of the other or smaller in the first byte in which they differ |
| Fnv.StepInjectiveInHash | src/WAL.cpp:119-124 | An FNV-1a step is injective in the hash: multiplication by the prime has an inverse mod 2^32 |
| Fnv.StepInjectiveInByte | src/WAL.cpp:119-124 | An FNV-1a step is injective in the byte |
| Fnv.HashDetects | src/WAL.cpp:117-136 | Changing any one byte of the hashed data changes the hash, for data of any length |
| Fnv.KnownHash | src/WAL.cpp:117-124 | The hash of the one-byte string `a` is the published one |
| Fnv.Update | src/WAL.cpp:119-124 | The loop computes the specification hash of the bytes so far |
| WalFile.ComputeChecksum | src/WAL.cpp:117-136 | The five updates hash type, sizes, key and value as one string |
| WalFile.WriteAll | src/WAL.cpp:138-152 | Whatever write(2) takes at a time and however often it is interrupted, exactly the bytes are appended, and at every moment the file is the old content plus a prefix of them |
| WalFile.ReadAll | src/WAL.cpp:154-176 | For any pattern of short and interrupted reads: the requested bytes, or all that are left |
| WalFile.Append | src/WAL.cpp:185-209 | Appends one encoded record, whatever the padding of the header struct holds |
| WalFile.ReadRecord | src/WAL.cpp:216-258 | One turn of the replay loop decides torn, bad or good as the format specifies and counts the torn bytes |
| WalFile.ReplayFile | src/WAL.cpp:211-265 | The loop applies exactly the records the specification replays and returns or throws as it does, for any pattern of short reads |
| WalFormat.ParseEncoded | src/WAL.cpp:216-258 | A written record is read back exactly, whatever follows it and whatever its padding |
| WalFormat.ParseSound | src/WAL.cpp:216-258 | Nothing but the encoding of a record is ever accepted as one |
| WalFormat.PutBytes | src/WAL.cpp:22-30 | The bytes of a record, literally: where magic, type, sizes, checksum, key and value lie, and what the checksum covers |
| WalFormat.ParseCut | src/WAL.cpp:219-253 | A record cut anywhere is a torn tail, not an error |
| WalFormat.ReplayPrefix | src/WAL.cpp:211-265 | On every byte prefix of a log replay does not throw, applies exactly the records wholly contained, in order, and reports the remaining length as skipped |
| WalFormat.ReplayAccounts | src/WAL.cpp:211-265 | On any file on which replay returns, the file is the encoding of exactly the applied records followed by exactly the skipped bytes |
| WalFormat.ReplayThrough | src/WAL.cpp:216-262 | Replay passes any number of whole records and goes on with whatever follows |
| WalFormat.ChangeDetected | src/WAL.cpp:225-258 | Changing any one byte of a record outside size fields and padding makes its check fail, whatever follows |
| WalFormat.CorruptionDetected | src/WAL.cpp:211-265 | In a log of any length such a change makes replay throw at that record after applying exactly the records before it |
| WalFormat.SyncedSurvive | src/WAL.cpp:267-271 | Of a log cut anywhere behind its first n bytes, every record wholly within them is replayed, in order, and nothing that was not appended |
| WalFormat.TornTailExact | src/WAL.cpp:211-265 | Records appended behind what a crash left of a record are all replayed, with nothing skipped, if and only if it left nothing |
| WalFormat.TornMagicPoisons | src/WAL.cpp:225-227 | A record appended behind a tail torn inside the magic makes the next replay throw |
| WalFormat.TornTypePoisons | src/WAL.cpp:229-232 | A record appended behind a tail of just the magic makes the next replay throw |
| WalFormat.TornPayloadSwallows | src/WAL.cpp:237-253 | Records appended behind a tail that holds a whole header vanish into it until it is filled up |
| WalSync.NothingForgotten | src/WAL.cpp:325-425 | In every interleaving of appenders, Reset, Sync, the background thread and the destructor, an unsynced record implies that `dirty_` is set, or the thread owes an fsync, or an appender has yet to call MarkDirty |
| WalSync.ClosedIsSynced | src/WAL.cpp:319-323 | After the destructor everything is synced and the thread has stopped |
| WalSync.ImmediateSync | src/WAL.cpp:385-389 | With interval 0 every append that has returned is synced |
| WalSync.TurnSyncs | src/WAL.cpp:391-425 | With any interval, one turn of the background thread syncs every append that had returned when it was about to read the flag, in every interleaving |
| WalSync.QuietTurn | src/WAL.cpp:391-425 | A turn that nobody disturbs takes the flag away and, if it was set, syncs everything written; it ends waiting, or stopped if told to |
| WalSync.ExplicitSync | src/WAL.cpp:346-349 | A Sync that returns has synced everything written |
| WalSync.ResetEmpties | src/WAL.cpp:351-356 | A Reset that returns has emptied the file and left nothing to sync |
| WalSync.ResetClearsNothing | src/WAL.cpp:351-356 | When Reset clears `dirty_`, nothing is unsynced |
| WalSync.SyncedReplayed | src/WAL.cpp:267-271 | After power loss in any reachable state, every record at a position the protocol has synced and Reset has not taken out is replayed, in its place |
| WalSync.ReturnedSurvives | src/WAL.cpp:325-332 | With interval 0 the record of every append that has returned survives power loss, in every interleaving, until a Reset takes it out |
| WalSync.TurnSurvives | src/WAL.cpp:391-425 | With any interval it survives from the end of the next turn of the background thread on, until a Reset takes it out |
| WalSync.ClosedSurvives | src/WAL.cpp:319-323 | After the destructor every record in the file survives power loss |
| WalSync.HolderCanStep | src/WAL.cpp:351-418 | No deadlock between the append and the sync mutex |
| WalSync.WaitsForHolder | src/WAL.cpp:319-425 | An appender, Reset, Sync, the background thread or the destructor that cannot go on waits for a mutex that is held, or the destructor for the thread |
| WalSync.RunInv | src/WAL.cpp:319-425 | The invariant of the sync protocol in every state of every run |
| SnapshotFormat.SnapshotRoundTrip | src/kvstore.cpp:38-120 | Loading a written snapshot yields exactly the pairs written, whatever follows them |
| SnapshotFormat.LoadExact | src/kvstore.cpp:76-120 | A file loads as a list of pairs if and only if it starts with the snapshot written for them |
| SnapshotFormat.HeaderIs | src/kvstore.cpp:92-96 | A file that loads starts with the eight bytes of magic and version |
| SnapshotFormat.SnapshotCut | src/kvstore.cpp:76-120 | A snapshot cut short anywhere does not load |
| SnapshotFormat.ListingRebuilds | src/kvstore.cpp:97-119 | Putting the loaded pairs into an empty index rebuilds the map |
| Recovery.ReplayIdempotent | src/kvstore.cpp:131-141 | Replaying a log over a map that already holds its effects changes nothing |
| Recovery.RecoverLog | src/kvstore.cpp:126-142 | A log of whole records and perhaps a torn one recovers to those records applied to the snapshot |
| Durability.CrashSafe | src/kvstore.cpp:157-192 | In every run of Put, Delete and Checkpoint with any number of crashes at any byte, recovery yields the map after all completed updates plus the one in flight exactly when its record is completely in the log; it does so if and only if no snapshot was put in place whose last bytes were lost in the unchecked close, and otherwise it throws |
| Durability.CheckpointPreserves | src/kvstore.cpp:183-192 | At every crash point of a checkpoint (temporary file partly written, renamed, log not yet reset, log reset, or given up) recovery rebuilds exactly the map in memory, under the same if and only if |
| Durability.JournalGrows | src/kvstore.cpp:157-175 | No completed update is ever forgotten, across any number of crashes |
| Durability.AppendBehindTornTail | src/kvstore.cpp:126-142 | Why updates need a log without a torn tail, exactly: what a store appends is replayed by the next start, with nothing skipped, if and only if the last replay reported 0 skipped bytes |
| Durability.AppendedLost | src/kvstore.cpp:126-142 | Behind a tail of 1 to 4 bytes updates make the next start throw; behind a tail that holds a whole header they vanish until they fill it up |
| Durability.CheckpointLost | src/kvstore.cpp:183-192 | The failing input: from any idle state a full disk at the close of the snapshot leads to an empty log, a checkpoint reported as done, an unchanged map in memory and a store that does not start again |
| Durability.UpdateCompletes | src/kvstore.cpp:157-175 | From every idle state without a torn tail any update can be completed; it is then in memory, in the log and in what a restart recovers |
| Durability.CheckpointCompletes | src/kvstore.cpp:183-192 | From every idle state a checkpoint can be completed; it leaves an empty log and files that recover to the map, also where the log ended in a torn tail or the snapshot was short |
| KvStores.KVStore.Open | src/kvstore.cpp:126-142 | Opening yields exactly the recovered map, or the error of the snapshot or of the log; without a log an empty store |
| KvStores.KVStore.Put | src/kvstore.cpp:157-163 | The map gains the pair, the answer says whether the key was new, and at every point at which the files can be cut recovery yields the map before or after |
| KvStores.KVStore.Delete | src/kvstore.cpp:169-175 | The same for a removal |
| KvStores.KVStore.Get | src/kvstore.cpp:165-167 | True exactly when the key is present, with its value |
| KvStores.KVStore.Scan | src/kvstore.cpp:177-181 | The ordered inclusive range of the map |
| KvStores.KVStore.Checkpoint | src/kvstore.cpp:183-192 | It completes if and only if there is a log and the disk lets the snapshot be opened, written and renamed and the log be reset: then the snapshot of the map is in place and the log is empty. The map is unchanged, failure leaves the log. On a recoverable store every crash point recovers to the map, and so do the files at the end, if and only if the close of the stream lost nothing; a checkpoint that loses nothing makes any store recoverable |
| KvStores.KVStore.WriteSnapshotFile | src/kvstore.cpp:38-74 | It succeeds if and only if opening, writing and renaming do; an error seen before the stream is closed, or by rename, leaves the old snapshot; otherwise the file renamed is the encoding of the pairs up to what the close, whose result is ignored, has written |
| KvStores.LoadSnapshotFile | src/kvstore.cpp:76-120 | The loop throws exactly the error the format specifies, or the index holds the old map with all pairs put in order |
| KvStores.KVStore.ApplyLog | src/kvstore.cpp:134-140 | The replay callback applied record by record |
| KvStores.AppendCrash | src/WAL.cpp:185-209 | Cutting an append after any number of bytes recovers to the old map, or to the new one exactly when the whole record arrived |
| KvStores.CheckpointCrash | src/kvstore.cpp:183-192 | Between rename and reset, and after reset, the files recover to the same map |
| KvStores.ShortSnapshot | src/kvstore.cpp:60-67 | A snapshot put in place short makes every later start throw, whatever the log holds |
| KvStores.Run | src/kvstore.cpp:157-192 | For any sequence of updates and checkpoints on a healthy store, up to the first checkpoint that loses bytes in the close: cut inside update j, recovery yields the map after j or j+1 updates |
| RespFormat.ExtractExtends | src/Protocol.cpp:76-132 | When more bytes arrive, an error stays the same error, a complete request ends at the same byte, and its tokens stay the same if and only if none of its lengths wraps 64 bits |
| RespFormat.WrappedLength | src/Protocol.cpp:108-128 | A concrete request, with bulk length -2, whose token is whatever follows it |
| RespFormat.RequestRoundTrip | src/client_main.cpp:174-184 | For every token list, any bytes in the tokens, and any suffix, extraction from the encoding returns exactly the tokens and leaves exactly the suffix |
| RespFormat.ParsePrinted | src/Protocol.cpp:35-50 | A size below 2^64 printed in decimal is parsed back |
| RespFormat.CutIncomplete | src/Protocol.cpp:76-132 | Every proper prefix of an encoded request is incomplete, never an error |
| RespGrammar.ExtractExact | src/Protocol.cpp:76-132 | A request is extracted if and only if the buffer starts with its bytes: an array line, then for each token a length line, the token and a line end, and no length wraps |
| RespGrammar.ErrorIsFinal | src/Protocol.cpp:76-132 | After an error no continuation of the buffer starts with a request |
| RespGrammar.PartWaits | src/Protocol.cpp:76-132 | A request of any spelling that has not arrived completely is waited for |
| RespGrammar.NumberRead | src/Protocol.cpp:35-50 | White space, an optional sign and digits, up to the end or a NUL, are read as their value; a minus sign takes it from 2^64, and 2^64 or more is refused |
| RespGrammar.OnlyNumbers | src/Protocol.cpp:35-50 | Nothing else is accepted as a length |
| RequestCodecs.ChunksDoNotMatter | src/Protocol.cpp:54-70 | Any way to cut a stream into Append/ExtractRequests calls yields the requests and the leftover bytes that one call yields, and fails exactly when that fails, with the same error |
| RequestCodecs.WrapsMatter | src/Protocol.cpp:116-128 | For a stream that decodes, cutting it at any place changes nothing if and only if no length wraps in one of the requests complete at the cut |
| RequestCodecs.DecodeSplits | src/Protocol.cpp:58-70 | Extraction may stop at any byte and go on later |
| RequestCodecs.StreamDecodes | src/Protocol.cpp:58-70 | A stream of encoded requests, the last perhaps cut short, decodes to exactly those requests |
| RequestCodecs.ClientToServer | src/client_main.cpp:174-184 | From the client encoder through any chunking to the server decoder no request is lost, changed, split or reordered |
| RequestCodecs.RequestCodec.TryExtractResp | src/Protocol.cpp:76-132 | The loop over cursor and tokens does on every buffer what the format specifies, and erases exactly the request it returns |
| RequestCodecs.RequestCodec.ExtractRequests | src/Protocol.cpp:58-70 | All complete requests are returned and the rest stays; an exception discards those decoded in the same call and leaves the buffer at the offending one |
| RequestCodecs.EncodeResp | src/client_main.cpp:174-184 | The loop builds the encoding of the token list |
| Commands.CommandProcessor.Execute | src/Protocol.cpp:174-182 | Every request is answered, and changes the map, as the specification of its command says; CHECKPOINT is answered as the disk lets it end; on a healthy logged store every crash point of the call recovers to the map before or after it |
| Commands.CommandProcessor.ExecuteCommand | src/Protocol.cpp:184-250 | The dispatch, with its usage, not-found, unknown-command and checkpoint errors |
| Commands.CommandProcessor.WritePairs | src/Protocol.cpp:216-221 | The output loop of SCAN |
| Commands.GetTellsAll | src/Protocol.cpp:190-200 | The answer to GET determines exactly whether the key is present and its value |
| Commands.QuitAnswers | src/Protocol.cpp:226-228 | A request that makes the server hang up changes nothing, and every request has an answer |
| CommandLaws.PutLaw | src/Protocol.cpp:242-247 | For every spelling of the words and all non-empty keys and values: PUT changes the map to hold the value under the key, says whether the key was new, and GET reads the value back |
| CommandLaws.DelLaw | src/Protocol.cpp:202-207 | DEL removes exactly the key, says whether it was there, and GET finds it no more |
| CommandLaws.GetLaw | src/Protocol.cpp:190-200 | GET changes nothing and answers the value of its argument, or NOT_FOUND |
| CommandLaws.ScanLaw | src/Protocol.cpp:209-224 | SCAN changes nothing and answers, in ascending order, exactly the pairs whose keys are not below its first argument and not above its second, with their number |
| CommandLaws.CheckpointLaw | src/Protocol.cpp:230-240 | CHECKPOINT changes nothing and answers that it is done unless there is no log or the disk refuses something that is noticed |
| CommandLaws.PlainLaws | src/Protocol.cpp:186-188 | PING and QUIT without arguments change nothing and answer PONG and BYE |
| CommandLaws.UsageLaws | src/Protocol.cpp:184-247 | A wrong number of arguments, or a PUT with an empty key or value, changes nothing and is answered with the usage of the word |
| CommandLaws.UnknownLaws | src/Protocol.cpp:174-178 | So does an empty request, and a word that is none of the seven in any spelling |
| CommandLaws.QuitLaw | src/Server.cpp:318-322 | The server hangs up after exactly the requests whose word is QUIT in any spelling |
| CommandLaws.SpellsFolded | src/Protocol.cpp:14-19 | Folding to upper case recognizes exactly the mixtures of upper and lower case of a word |
| Servers.Reactor.EndToEnd | src/Server.cpp:285-362 | For any chunking of reads and any partial writes, decoding all bytes of a connection at once yields what was executed on it, in order, followed by exactly the requests lost with the chunk on which the decoder threw, if it did; each answer is that of the map at its moment, and the bytes sent are a prefix of the answers in order; a connection closed after QUIT has sent them all |
| Servers.Reactor.NoLostWakeup | src/Server.cpp:260-371 | At every handler boundary, bytes sent followed by `write_buffer` are the answers in order, EPOLLOUT is registered exactly when `write_buffer` is not empty, `close_after_write` implies bytes left to send and is set exactly when a QUIT was executed |
| Servers.Reactor.AnswersSurvive | src/Server.cpp:315-326 | Between two events a restart would bring back the map after every call answered so far, if it would have at the start or a checkpoint has completed since, as long as no later snapshot lost bytes in the close |
| Servers.Reactor.Run | src/Server.cpp:127-154 | For any clients and any events: every accepted connection is registered, and what it has read is exactly what its events delivered, in order, until it was closed; connections closed earlier do not change; the invariants of the reactor hold and history only grows |
| Servers.Reactor.TakeEvent | src/Server.cpp:136-151 | One event: an accept begins one life of a connection, any other event continues that of its descriptor only |
| Servers.Reactor.HandleConnectionEvent | src/Server.cpp:260-283 | An unknown descriptor changes nothing; an error or hangup closes without executing anything; otherwise EPOLLIN reads until the kernel would block or the connection is closed, without it nothing is read or executed, and EPOLLOUT sends until the queue is empty or the kernel would block; no other connection is touched |
| Servers.Reactor.ServeEvent | src/Server.cpp:272-282 | For a connection without error flags: exactly the bytes that the reads delivered are read, and exactly those the kernel took leave the queue, in order |
| Servers.Reactor.ReadAvailable | src/Server.cpp:288-325 | The read loop consumes reads up to the first that would block or fails, the end of the stream, or a chunk on which the decoder throws |
| Servers.Reactor.ReadFromConnection | src/Server.cpp:285-335 | Exactly what the consumed reads delivered is read; the connection is closed by a read error, the end of the stream, a chunk on which the decoder throws, or while sending, and otherwise reading stops where it would block |
| Servers.Reactor.WriteToConnection | src/Server.cpp:337-362 | Exactly the bytes the kernel takes are sent, in order; sending stops only when nothing is left or the kernel would block; the connection is closed by a write error, or when everything is sent and closing was asked for |
| Servers.Reactor.ServeChunk | src/Server.cpp:306-327 | One read: its requests are executed in order and their answers queued, or the decoder throws and nothing is executed |
| Servers.Reactor.ServeRequests | src/Server.cpp:315-326 | The loop over the requests of one read |
| Servers.Reactor.AcceptConnection | src/Server.cpp:239-253 | A new connection has read, sent and queued nothing, and waits for input |
| Servers.Reactor.CloseConnection | src/Server.cpp:373-378 | The connection is erased; nothing else changes |
| ServerHistory.RequestLost | src/Server.cpp:308-313 | The losing input: any complete request in one chunk with a byte that cannot start another is not executed |
| Servers.Reactor.ReceiveChunk | src/Server.cpp:306-327 | A chunk is served completely, or the connection is closed with nothing of it executed |
| ServerHistory.ExecutedInOrder | src/Server.cpp:285-329 | Executed requests against one-shot decoding: equal but for the requests completed by the chunk on which the decoder threw; so nothing is lost if and only if that chunk completes no request before the error |

## Left out

- KvStores.KVStore.Put: the claim about crash points is conditional on a log without a torn tail and on a key and value below 2^32 bytes, because the size fields are 32 bits wide and the tail is never truncated.
- KvStores.KVStore.Delete: the same conditions.
- KvStores.KVStore.Checkpoint: the claim about crash points needs keys and values below 2^32 bytes; it holds for process crashes only, because the snapshot file is never fsynced.
- Durability.CrashSafe: runs in which a record is appended behind a torn tail are excluded; `Durability.AppendBehindTornTail` shows why.
- RequestCodecs.ChunksDoNotMatter: needs that no length in the stream wraps around 2^64 and that no string exceeds 2^63 - 1 bytes.
- SkipListResults.ReadersHonest: gives no lower bound for a concurrent Scan, because there is none without a condition; `SkipListRanges.RangedExact` has the condition and the bound.
- Concurrent exactness of `current_level_`: it does not hold, as `SkipListStale.DeleteLivelocks` shows. Safety does not depend on it; progress of lone updates does, and `SkipListLone` says how. In runs whose calls do not overlap it is exact as far as progress needs it (`SkipListLevels.SequentialFits`).
- Termination of calls that overlap: there is none to promise for updates, as `SkipListStale.DeleteLivelocks` shows, nor while the scheduler withholds a thread that holds a mutex; `SkipListReturns.StepFalls` bounds what a call does by itself.
- Weak memory ordering, and the random distribution of levels; any level may be drawn at any time.
- The lifecycle and ownership mutexes as such: Clear is one step that waits until no call is in flight, allocation and `push_back` are one step.
- The sequential class takes no locks, since there is nobody to take them from; the compare-and-swap loop of RaiseCurrentLevel is an `if` there, the real loop is in the step model.
- Concurrent callers of KVStore: the log and the index are separate critical sections, and the reactor is the only caller.
- In WalSync, fsync is one step that covers what was written before it; with interval 0 MarkDirty syncs without the append mutex, and the exchange of the descriptor by a simultaneous Reset is not modelled.
- I/O errors of the log (write, fsync, open) and errors of epoll_ctl and accept, which end the process. Of the errors of a checkpoint the model has those of opening, writing, closing and renaming the snapshot and of resetting the log, as answers of the disk that each call is given.
- The replay callback is modelled by the list of records handed to it; the index of a store whose opening throws is discarded anyway.
- Memory exhaustion; `reserve` throws only beyond the largest vector.
- Sockets, accept, signals, directories, timers, argument parsing and the benchmark programs.
- The text-line form of Execute and the client's line reader, which would only add easy members.
