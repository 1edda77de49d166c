# tsheadroom, verified

A Dafny model of tsheadroom, the hook service that compresses LLM requests with a pool of
Python workers, and proofs of what it promises. `dafny verify dfyconfig.toml` checks it all.

**The worker pool** (`pool.go`, `worker.py`). `PoolMachine` is the pool as a machine of atomic
steps: callers in `Compress` and `dispatch`, slots in `runSlot` and `spawn`, the thread in
`Shutdown`, and at the far end of each slot's pipes a process that replies, fails, writes junk,
hangs or crashes. Scheduling, timers, what a process does and which ready branch a `select`
takes are all in the choice of the next step, so a theorem about every run is a theorem about
every interleaving. `PoolObject` is the same pool as an object whose fields change in place, one
method per atomic stretch of the Go code, each proved to be the machine's step, so that whatever
the order of the calls the object is always in a state some run of the machine reaches; the drain
of `Shutdown` is there as the loop it is, with callers moving between its steps. `PoolInvariant`, `PoolLedger` and `PoolRuns` build the
invariant; `PoolRefinement`, `PoolOutcomes`, `PoolShutdown` and `PoolProgress` hold the theorems.
`WorkerLoop` is the loop of `worker.py`, and shows that it is the worker the pool assumes. A worker
is *strict* when it writes one reply per request and nothing else; what the theorems say without
that word holds for workers that also write stray lines, under any id, as long as none attributes
to a request the worker has taken the result of another, or guesses the id of the request that will
read it.

**The settings store** (`config.go`). `SettingsStore` has the struct, the cells its nullable
fields point to, and the shallow copy that `merge` decodes onto. `SettingsDecoding` says on values
what such a decode does to the copy and, through the shared cells, to the current settings.
`SettingsRuns` cuts an update into its single writes and interleaves it with readers, with the
structs readers have got and keep, and with crashes. A body is *harmless* to settings when it
assigns, to a nullable field that is not null, no other value than the one it has.

**The handler, the counters and the codings** (`handler.go`, `metrics.go`, `encoding.go`).
`AffinityKey`, `Routing`, `Handler`, `MetricsCounters`, `Exposition` and `Encoding` model one
file or part each; `Visits` ties the counters to the requests they count. `SettingsSent` joins
pool and store: a call carries a struct got from the store, which is read again when the request
is marshalled. `Service` runs handlers, pool, store and counters together and states the
end-to-end results.

Six promises in the source's comments do not hold of its code as a whole. For each there is a
theorem that says exactly when the code does meet it, and a concrete case where it does not:

- `dispatch` (pool.go:286-289) says Shutdown also drains a job that slips in after the check. It
  does unless the send lands after the drain has passed that slot's buffer; some run leaves a call
  over in that way if and only if the call is routed by its key (`PoolShutdown.ShutdownAnswers`,
  `PoolShutdown.LeftoverExactly`).
- `Shutdown` (pool.go:319-320) says a slot in a call finishes it first. The call's context is a
  child of the pool's (pool.go:379), so the cancel may end it. A call in a slot is sure of its
  result exactly when the slot already has it in hand (`PoolOutcomes.SureOfResultExactly`,
  `PoolShutdown.CallCutShort`, `PoolShutdown.CancelledInFlight`).
- `set` (config.go:141-143) says an error leaves the settings in memory unchanged. `set` itself
  keeps that without condition (`SettingsStore.Store.Set`). `merge`, which a PUT goes through and
  whose own comment promises only that no change is lost, does not: it decodes through the shared
  pointers first, so an error leaves memory unchanged exactly for a harmless body
  (`SettingsStore.Store.Put`, `SettingsStore.RejectedPutLeaks`).
- `validate` (config.go:63) says a bad PUT cannot wedge the service. One that finds valid settings
  and is not applied does so exactly when the last value it gives, before any null, to a nullable
  field that is not null is a bad one
  (`SettingsDecoding.WedgesExactly`, `SettingsRuns.RefusalWedgesExactly`). From then on, as long as
  no update assigns that field, none is applied and it stays bad (`SettingsRuns.WedgeStays`); null
  for it is accepted if it was the only fault (`SettingsDecoding.NullUnwedges`).
- `savingsProfiles` (config.go:44-47) says that because of validation an unknown name never reaches
  compress(). Validation does not keep one from being sent to a worker; that the worker then drops it
  (worker.py:214-226) is not part of this model. A struct read for a call shares its cells with later
  updates, refused ones too, so a request is written with valid settings exactly when the updates its
  struct has met left no bad value in them (`Service.WrittenValidExactly`,
  `SettingsRuns.SentValidExactly`, `SettingsRuns.BadProfileSent`).
- `get` (config.go:138) is called a snapshot. What it returns stays as it was exactly as long as the
  updates met since are harmless to its cells, whether or not they are applied
  (`SettingsRuns.SnapshotStaysExactly`, `SettingsRuns.SnapshotChanges`); and during an update it
  can be of settings that never were (`SettingsRuns.TornExactly`, `SettingsRuns.TornRead`).

## Model

| member | source | states |
|---|---|---|
| `PoolObject.Pool.constructor` | pool.go:225-247 | A new pool is the initial state of the machine: every slot at the top of spawn, empty buffers, zero counters, and the invariant holds. |
| `PoolObject.Pool.Submit` | pool.go:256-260 | A call makes a job with an empty reply channel of its own; nothing else changes. |
| `PoolObject.Pool.LookAtContext` | pool.go:285-297 | The first check: a cancelled pool refuses; otherwise, with affinity enabled and a non-empty key, the call goes to its affinity slot, and any other to the shared channel. |
| `PoolObject.Pool.TrySend` | pool.go:297-304 | The non-blocking send succeeds exactly when the depth-1 buffer of the key's slot is empty; then this job is in it, else only the caller moves on. |
| `PoolObject.Pool.CountAffinityHit` | pool.go:300-301 | The hit is counted in a step of its own, after the send. |
| `PoolObject.Pool.HandOver` | pool.go:306-312 | The rendezvous: one offering caller and one idle slot move together, the job changing hands once. |
| `PoolObject.Pool.CountAffinitySpill` | pool.go:308-310 | The spill is counted in a step of its own, only for a keyed call. |
| `PoolObject.Pool.StopOffering` | pool.go:312-315 | An offer nobody takes ends with the pool's or the caller's context, each with its own error and without a job having been accepted. |
| `PoolObject.Pool.ReceiveReply` | pool.go:261-263 | What Compress returns is the one reply in its channel, and a result in it is one for its own request as written. |
| `PoolObject.Pool.AbandonWait` | pool.go:264-273 | A caller whose context fires returns at once; its job is left where it is. |
| `PoolObject.Pool.LookBeforeStart` | pool.go:404-411 | spawn gives up exactly when the pool is cancelled. |
| `PoolObject.Pool.StartProcess` | pool.go:448-490 | A started process is new, entered in the accounts, with request ids starting again; a failed start changes no account. |
| `PoolObject.Pool.AwaitReadyLine` | pool.go:526-546 | A ready worker goes to whatever spawn was called for; any other first line, end of file or time-out leads to a kill. |
| `PoolObject.Pool.KillUnready` | pool.go:492-495 | A worker that did not get ready is waited on once and forgotten. |
| `PoolObject.Pool.BackOff` | pool.go:418-427 | spawn waits before its next try, or gives up if the pool is cancelled meanwhile. |
| `PoolObject.Pool.LeaveLoop` | pool.go:355-361 | An idle slot of a cancelled pool may leave its loop. |
| `PoolObject.Pool.TakeFromBuffer` | pool.go:355-364 | An idle slot takes the one job in its own buffer and leaves the buffer empty. |
| `PoolObject.Pool.BeginCall` | pool.go:366-380 | A slot with a worker is counted busy before it writes; one without spawns for the job it holds. |
| `PoolObject.Pool.WriteRequest` | pool.go:551-562 | The request goes out under the next id, with the settings its struct shows at that moment and all else as submitted, and the reader is set going; a failed write ends the call with an error. |
| `PoolObject.Pool.ReadResponse` | pool.go:510-584 | A line read is accepted or refused by its content, and accepted only as a result for the request written; end of file, the hard cap and the pool's cancel all end the call with an error. |
| `PoolObject.Pool.FinishCall` | pool.go:381-389 | The slot stops being busy; after a result it replies, after an error it recycles. |
| `PoolObject.Pool.KillAndRespawn` | pool.go:385-388 | The worker is killed and waited on once before the slot goes on, still owing its reply. |
| `PoolObject.Pool.Answer` | pool.go:395-398 | The reply finds the channel empty, is for the job the slot holds, and carries a result only for that job's request as written. |
| `PoolObject.Pool.AnswerUnavailable` | pool.go:366-371 | A job received by a slot that cannot respawn is still answered, and the slot leaves. |
| `PoolObject.Pool.ShutDownWorker` | pool.go:349-353 | A leaving slot waits on its worker once, if it has one. |
| `PoolObject.Pool.ProcessMoves` | worker.py:303-322 | The process and the reader goroutine change only the worker of their own slot, neither its phase nor what was written to it. |
| `PoolObject.Pool.CancelPool` | pool.go:323-324 | Cancelling changes nothing but the pool context. |
| `PoolObject.Pool.StopWaiting` | pool.go:325 | Shutdown starts draining only when every slot is gone. |
| `PoolObject.Pool.DrainReceive` | pool.go:334-337 | The drain takes the job out of the buffer it stands at. |
| `PoolObject.Pool.DrainAnswer` | pool.go:338 | The drained job gets one error reply. |
| `PoolObject.Pool.DrainAdvance` | pool.go:326-340 | The drain leaves a buffer only when it is empty. |
| `PoolObject.Pool.OthersMove` | pool.go:256-316 | What callers do between two steps of Shutdown, calls begun meanwhile and late sends included, is their own steps of the machine; it withdraws no answer, moves no job in a buffer, and leaves Shutdown where it is. |
| `PoolObject.Pool.DrainBuffered` | pool.go:334-343 | Whatever callers do between its steps, the loop ends, on an empty buffer, with the job that was in it told; no answer is changed. If they do nothing, that job alone is touched. |
| `PoolObject.Pool.DrainAndAdvance` | pool.go:326-328 | One round of Shutdown's loop tells the job of its buffer, keeps every answer, and moves on. Undisturbed it keeps: jobs buffered below the position have been told, no others touched. |
| `PoolObject.Pool.DrainLoop` | pool.go:326-328 | Whatever callers do meanwhile, the loop ends with one reply to every job accepted before, and to every job sent meanwhile that was not late; only a late one is left in a buffer. Undisturbed, every buffer is empty and exactly the buffered jobs have been told. |
| `PoolObject.Pool.DrainAll` | pool.go:323-329 | The same of everything after the wait: each job buffered then is told "shutting down", each answer stays as given, no call begun later is accepted, and what is left in a buffer is a late send. |
| `Protocol.Accept` | pool.go:568-584 | A line counts as a result exactly when it is an ok reply with a result under the id asked for; then it is that line's result and this slot's number. |
| `PoolInvariant.ProcessKeepsWorker` | worker.py:303-322 | Whatever a process does, replies stay attributable to requests it has read and the pipes stay as the slot relies on. |
| `PoolInvariant.AcceptedIsOwn` | pool.go:564-584 | A line accepted under the current id is a result for the request as last written, which is the outstanding job's, although ids restart with every worker. |
| `PoolInvariant.StepInv` | pool.go:256-400 | Every step keeps: each accepted unanswered job is in exactly one place, each caller is where its job allows, each worker's pipes are as its slot believes. |
| `PoolLedger.SlotStepProcesses` | pool.go:346-428 | A process is unreaped exactly while it is the worker of one slot, across starts, failed starts, recycles and shutdown. |
| `PoolLedger.SlotStepBusy` | pool.go:380-382 | The busy counter equals the number of slots inside a worker call. |
| `PoolRuns.StepFull` | pool.go:256-428 | Every step of callers, slots, processes and Shutdown keeps the whole invariant: placement, pipes, processes, counters, order, lateness, cold results. |
| `PoolRuns.RunFull` | pool.go:256-428 | Hence it holds in every state of every run. |
| `PoolRefinement.StepRefines` | pool.go:256-400 | Every step of the pool is a stutter, an arrival, an admission or one answer of a simple server that takes jobs from pending to answered. |
| `PoolRefinement.RunRefines` | pool.go:256-400 | Every run of the pool is a run of that server, from no jobs on. |
| `PoolRefinement.TicketStays` | pool.go:256-274 | In any run an answer once given is never withdrawn or replaced. |
| `PoolRefinement.AnsweredOnce` | pool.go:378-398 | In any run an answered job has had one reply, and it is the same in every later state. |
| `PoolRefinement.CompressReturnsOwnResult` | pool.go:256-274 | No cross-talk: a result Compress returns is one for that call's own messages, model and key, under the settings its request was written with, and is the only reply sent to it. |
| `PoolRefinement.ReplyNeverBlocks` | pool.go:395-398 | Whoever is about to send a reply finds the capacity-1 channel empty, in any interleaving. |
| `PoolRefinement.IdleWorkerIsQuiet` | pool.go:378-398 | An idle slot's worker has no reader outstanding and as many requests written as ids used; against the worker.py loop both its pipes are empty. |
| `PoolRefinement.WrongLineRecycles` | pool.go:385-388 | After a line that is not an ok reply under the current id, the slot's next steps, if nothing comes between, fail the call and kill and reap that worker. |
| `PoolOutcomes.RefusedNeverDelivered` | pool.go:564-584 | In any run, once a slot has read end of file or a line that is no result under the current id, in every later state its call is unanswered or answered with an error, and that worker is about to be killed or has been waited on once. |
| `PoolOutcomes.ResultAlwaysDelivered` | pool.go:564-584 | In any run, once a slot has read an ok line under the current id, in every later state its call is answered with that line's result, or its slot is about to answer with it. |
| `PoolOutcomes.CallCanSucceed` | pool.go:378-398 | From any reachable state in which a slot with a live, quiet worker has received a job, and for any settings and any result good for that request, a run answers the job with that result and leaves the slot idle with the same worker, one id further. |
| `PoolOutcomes.BoundStays` | pool.go:378-398 | No step of anybody changes an outcome a slot owes or has sent. |
| `PoolRefinement.BoundedOccupancy` | pool.go:238-245 | Accepted unanswered jobs never exceed twice the number of slots, and busy is the number of slots in a call, between 0 and size. |
| `PoolRefinement.RoutedByKey` | pool.go:296-312 | Every accepted job was handed over on the shared channel uncounted exactly if affinity is off or it has no key; all others were sent to their slot or spilled. |
| `PoolRefinement.CountersConserved` | pool.go:296-316 | hits plus senders yet to count is the affinity sends, likewise spills; with affinity on, both together and those yet to count are exactly the accepted calls with a key; refused calls are in neither; both stay zero with affinity off. |
| `PoolRefinement.OfferedAfterFull` | pool.go:297-307 | In any run, with affinity on, a call with a key is offered on the shared channel only after a send of its own to its slot's channel, at a time when that channel held a job. |
| `PoolRefinement.AffinityInOrder` | pool.go:297-304 | Affinity-routed jobs of one key go to one slot, are taken in the order sent, and each is answered before the next one is taken. |
| `PoolRefinement.ProcessesAccounted` | pool.go:346-428 | Started processes are the reaped plus the live ones, at most one live per slot, none waited on twice, and all waited on once Shutdown has returned. |
| `PoolRefinement.ColdAtMostOncePerWorker` | worker.py:240-242 | Calls answered with a cold result number at most the workers that got ready. |
| `PoolShutdown.ShutdownAnswers` | pool.go:323-343 | When Shutdown has returned an accepted job has been answered if and only if its send did not land after the drain; a call without a key, or with affinity off, always has; a leftover is the one job in its slot's buffer and its call began before the cancel. |
| `PoolShutdown.LateCallersRefused` | pool.go:290-294 | A call begun after the cancel is never accepted and can only return "shutting down". |
| `PoolShutdown.LeftoverCallerCanLeave` | pool.go:264-273 | The caller of a leftover job still returns when its own context fires. |
| `PoolShutdown.LeftoverExactly` | pool.go:286-304 | The promise of dispatch's comment fails for exactly the calls routed by key: for any such request and any pool there is a run in which Shutdown has returned and that request's accepted job, begun before the cancel, has no reply; for any other request there is none. |
| `PoolShutdown.CallCutShort` | pool.go:378-398 | The promise of Shutdown's comment fails: any request being read at the cancel can be cut short by its context and answered with an error. |
| `PoolOutcomes.SureOfResultExactly` | pool.go:346-398 | Which calls do meet that promise: a call in a slot of a cancelled pool is answered with a result in every run that answers it if and only if its slot already has the result in hand; for any other there is a run that answers it with an error. |
| `PoolShutdown.CancelledInFlight` | pool.go:319-325 | Such a state is reachable: a request written, then the cancel. |
| `PoolShutdown.CancelledStepShrinks` | pool.go:285-428 | After the cancel every step of the pool's own strictly lowers a measure over callers, jobs, slots and drain position; a new call adds one, nothing else changes it. |
| `PoolShutdown.ShutdownTerminates` | pool.go:285-428 | So in any run the own steps after the cancel are bounded by the work left at it plus the calls made since. |
| `PoolShutdown.SlotNeverStuck` | pool.go:346-428 | A slot always has a step of its own except when idle before the cancel or gone. |
| `PoolShutdown.RestIsShutdown` | pool.go:323-343 | A cancelled pool with no own step left has finished Shutdown; a caller that has not returned waits, with a live context, for a leftover job. |
| `PoolProgress.NoSlotLost` | pool.go:346-371 | Before the cancel no slot has left or is leaving, and a slot at its select or between calls has a worker. |
| `PoolProgress.NeverStuckBeforeCancel` | pool.go:306-316 | Before the cancel every caller that has not returned has a helpful step enabled, and an offering caller can meet any idle slot. |
| `PoolProgress.CallerBranches` | pool.go:256-316 | In any reachable state, which steps a caller can take: the one its place in the code says, and at its two selects every branch that is ready. |
| `PoolProgress.SpawnBranches` | pool.go:402-495 | Likewise for a slot and its worker: start, readiness, kill, back-off, and leaving only once the pool is cancelled. |
| `PoolProgress.TakeBranches` | pool.go:355-380 | An idle slot can take a job exactly when its buffer holds one, and can write to its worker exactly while that has not crashed; the write may always fail. |
| `PoolProgress.AnswerBranches` | pool.go:381-398 | A call being read can be ended by a line or end of file, the hard cap, or the cancel; whoever owes a reply can always send it. |
| `PoolProgress.ShutdownBranches` | pool.go:323-343 | Shutdown waits for every slot and then drains: from a buffer it takes a job exactly if there is one. |
| `PoolProgress.ProcessBranches` | worker.py:291-324 | What a worker process may do is not narrowed: it may crash, fail or answer a request, and if it is not strict write junk, errors and results under ids nobody has. |
| `WorkerLoop.Process.Compress` | worker.py:195-254 | Without a list of messages nothing is compressed and the process stays as cold as it was; otherwise it has served, and the result is flagged cold exactly if it had not before. |
| `WorkerLoop.Process.Handle` | worker.py:303-322 | One line in, none out if it is blank and else one: an ok reply with what compress() returned exactly for a call with a list of messages on which it returns, flagged cold exactly if none got that far before, and an error otherwise, under the line's id. |
| `WorkerLoop.Process.Serve` | worker.py:291-324 | Over any input each line that is not blank is answered so, at its place among them, and cold exactly if no earlier line of this process reached compress(). |
| `WorkerLoop.OneReplyPerLine` | worker.py:303-322 | So there is one reply per non-blank line, in order, under that line's id. |
| `WorkerLoop.OkExactly` | worker.py:318-322 | And as many ok replies as calls with a list of messages on which compress() returned. |
| `WorkerLoop.AtMostOneCold` | worker.py:240-242 | A process flags at most one reply cold, and none once it has served. |
| `WorkerLoop.LoopConforms` | worker.py:303-322 | The reply to a request line of the pool is an ok line exactly if its messages are a list and compress() returned, and is then one the pool machine assumes of a strict worker. |
| `SettingsDecoding.DecodeWritesThrough` | config.go:153-162 | What decoding onto the shallow copy leaves in the current settings: each shared cell holds the last value assigned before the first null. |
| `SettingsDecoding.HarmlessExactly` | config.go:153-162 | The current settings survive the decode if and only if the body assigns no other value to a nullable field that is not null. |
| `SettingsDecoding.DecodesFieldByField` | config.go:157-162 | What an update makes of each field depends on that field's own values in the body only: the last that fits, with null and misfits for pointers. |
| `SettingsDecoding.BadExactly` | config.go:153-162 | A decode is in error if and only if some token does not fit the field of its key; null fits any, and a key that is no field takes anything. |
| `SettingsDecoding.AcceptableExactly` | config.go:153-179 | An update gets as far as being saved if and only if its body is null or an object whose tokens all fit, and what it makes of each field is valid; a body cut off, or no object, is refused and changes nothing. |
| `SettingsDecoding.AcceptedPlain` | config.go:63-71 | The values a PUT of one field may give it: any boolean, and for the two numbers any that is not negative. |
| `SettingsDecoding.AcceptedNullable` | config.go:72-81 | For a ratio any above 0 up to 1, for the model any text but the empty one, for the profile "agent-90" and "balanced". |
| `SettingsDecoding.WedgesExactly` | config.go:63-81 | Which bodies break the promise that a bad PUT cannot wedge the service: from valid settings, the current ones are left failing validation in exactly the fields, not null, to which the body gives a bad value before any null for it, and then even an update that changes nothing is refused. |
| `SettingsDecoding.SpoiltWedges` | config.go:63-81 | An update of settings with a spoilt field that does not assign that field is refused. |
| `SettingsDecoding.NullUnwedges` | config.go:63-81 | Setting one field to null is accepted if and only if the settings are valid without it. |
| `SettingsDecoding.FirstHarmChanges` | config.go:153-162 | A struct got earlier stays as it was through updates harmless to the cells it still shares, and the first that is not changes it. |
| `SettingsDecoding.FileRoundTrip` | config.go:182-197 | Settings decoded from what save writes are the settings saved. |
| `SettingsDecoding.LoadExactly` | config.go:111-136 | A restart finds the file's settings, fields left out being zero, exactly if there is a path, a file that decodes and valid settings in it, and otherwise the defaults, which are spelt out. |
| `SettingsDecoding.LoadedIsValid` | config.go:111-136 | Whatever is on disk, loading gives valid settings. |
| `SettingsDecoding.LoadAfterSave` | config.go:111-198 | Loading after a save gives the saved settings, if valid. |
| `SettingsStore.DecodePointer` | config.go:157-162 | One assignment to a pointer field on the heap: null drops the pointer, a value goes through it, a misfit is an error. |
| `SettingsStore.DecodeField` | config.go:157-162 | Decoding one field on the heap agrees with the decode on values, including what it does to the cells of the current struct. |
| `SettingsStore.DecodePlain` | config.go:157-162 | A field that is no pointer changes only the copy; null is ignored, a misfit or an integer out of range is an error. |
| `SettingsStore.Unmarshal` | config.go:157-162 | The loop over the fields leaves in the copy, and in the struct it was copied from, what the decode on values says; it fails exactly for a body that does not decode, and the copy is the body applied field by field. |
| `SettingsStore.UnmarshalUnder` | config.go:157-162 | The same with any struct got earlier in view: which of its cells the decode writes, and which the copy still shares. |
| `SettingsStore.Store.constructor` | config.go:111-136 | A new store holds what loading the disk gives, and a restart would give the same. |
| `SettingsStore.Store.Get` | config.go:138-139 | A copy of the struct: its values are the current ones, and its nullable fields are still the current cells. |
| `SettingsStore.Store.Save` | config.go:181-198 | The file is replaced whole or, on an error, not at all; without a path nothing is written. |
| `SettingsStore.Store.ApplyLocked` | config.go:169-179 | Invalid settings and failed saves change neither disk nor memory; otherwise disk and memory both become the new settings. |
| `SettingsStore.Store.Set` | config.go:141-148 | Setting any struct either takes it over durably or leaves both disk and memory as they were. |
| `SettingsStore.Store.Merge` | config.go:150-167 | A partial update is applied exactly when it decodes, validates and is saved; the settings are then the decode of the body onto the old ones. Applied or not, the old struct and any struct got earlier show in the cells they share what the decode wrote, and share afterwards what it kept. |
| `SettingsStore.Store.Put` | config.go:150-167 | A PUT is refused exactly if its body does not decode or leaves some field invalid, and else applied, field by field and durably, or not persisted; one that is not applied leaves disk and current struct alone. Whatever the outcome, the old settings in the hands of whoever got them stay what they were if and only if the body is harmless. |
| `SettingsStore.RejectedPutLeaks` | config.go:141-167 | The promise that an error leaves memory unchanged fails: a rejected body after which the current settings are not even valid. |
| `SettingsRuns.Serialisable` | config.go:138-179 | Outside the lock, as long as no refused update has spilt, the settings are the fold of the applied updates in lock order, valid, and what a restart would load. |
| `SettingsRuns.CrashSafe` | config.go:169-198 | A crash at any point, also between save and swap, reloads to a valid fold: without or with the update being applied. |
| `SettingsRuns.SpillsExactly` | config.go:153-179 | In any run an update refused or not saved leaves other settings behind if and only if its body was not harmless to those it found. |
| `SettingsRuns.SpiltExactly` | config.go:150-179 | A run counts as spilt exactly if some update ended without being applied and its body was not harmless. |
| `SettingsRuns.DecidedExactly` | config.go:157-179 | An update decoded to its end is saved or refused by its body and what it found alone, as above. |
| `SettingsRuns.RefusalWedgesExactly` | config.go:150-167 | In any run, an update that finds valid settings and is refused or not saved leaves them spoilt in exactly the fields its body spoils, and wedges the store if and only if there is one. |
| `SettingsRuns.WedgeStays` | config.go:63-81 | In any run, from a spoilt field on and as long as no update assigns it, no update is applied, the file stays as it is, and the field stays spoilt, whatever else is decoded and refused. |
| `SettingsRuns.ReaderSeesOldExactly` | config.go:138-179 | As long as an update holds the lock (decoding, validating, saving, about to swap) a reader sees the old settings if and only if the fields decoded so far are harmless. |
| `SettingsRuns.ReaderSeesValidExactly` | config.go:138-179 | Meanwhile, if it found valid settings, a reader sees valid ones if and only if the fields decoded so far spoil none. |
| `SettingsRuns.TornExactly` | config.go:138-179 | A reader sees settings that are neither those before nor those after an update if and only if the fields decoded are not harmless and some field of the update has not arrived. |
| `SettingsRuns.SnapshotStaysExactly` | config.go:138-162 | In any run, settings got at one time and looked at again at any later time are unchanged if and only if the updates met in between, also the one in progress at either end, left their cells with the values got. |
| `SettingsRuns.MetIsHistory` | config.go:138-179 | The updates a held struct is said to have met are those the run shows to have ended since it was got, with, of the one in progress then, only the fields decoded later. |
| `SettingsRuns.SentIsGotExactly` | pool.go:551-559 | So what is marshalled of settings got earlier is what was got if and only if the updates met in between were harmless to them. |
| `SettingsRuns.SentValidExactly` | config.go:44-47 | What is marshalled of valid settings got earlier is valid if and only if the updates met in between left no bad value in their cells. |
| `SettingsRuns.BadProfileSent` | config.go:44-47 | Validation alone does not keep an unknown profile from a worker: a run in which one is marshalled, of settings got with a known one, because of an update about to be refused. |
| `SettingsRuns.SnapshotChanges` | config.go:138-167 | A struct got while no update was in progress, with another value in it after one that was applied. |
| `SettingsRuns.AlwaysHarmlessExactly` | config.go:153-162 | A body is harmless throughout if and only if no prefix of its fields changes the settings found. |
| `SettingsRuns.ReadersSeePrefixes` | config.go:138-179 | If all updates are harmless throughout, every value any reader gets at any time is a prefix of the final fold. |
| `SettingsRuns.TornRead` | config.go:138-179 | Such a read exists, of an update that is applied. |
| `SettingsRuns.DisjointUpdatesCommute` | config.go:150-152 | Updates of different fields give the same settings in either order, so neither loses the other. |
| `AffinityKey.WritesConcatenate` | handler.go:387-404 | Hashing in several writes is hashing the concatenation. |
| `AffinityKey.Write64` | handler.go:387-404 | The byte loop of FNV-1a computes the hash function. |
| `AffinityKey.Write32` | pool.go:181-182 | So does its 32-bit loop. |
| `AffinityKey.PublishedValues` | pool.go:178-183 | The 32-bit hash has its published values for "", "a" and "b". |
| `AffinityKey.PublishedValues64` | handler.go:387 | So has the 64-bit one. |
| `AffinityKey.SameByte` | pool.go:181-182 | Different 32-bit hashes stay different under the same byte. |
| `AffinityKey.SameHash` | pool.go:181-182 | And the same one becomes different under different bytes. |
| `AffinityKey.OneByteTells` | pool.go:178-183 | So keys that differ in one byte hash differently. |
| `AffinityKey.SameEncodesAlike` | handler.go:392-400 | JSON values that differ only in the order of their objects' distinct keys, at any depth, encode to the same bytes. |
| `AffinityKey.PermutedIsSame` | handler.go:392-400 | Any permutation of the fields of an object without repeated keys is such a difference. |
| `AffinityKey.SameWithin` | handler.go:392-400 | And so is one within its fields, or within the items of an array. |
| `AffinityKey.EncodesAsJson` | handler.go:392-400 | What is hashed is compact JSON: the literals, arrays in order, and objects with one field per key, the keys ascending, each with its last value; it exists unless some number has no text. |
| `AffinityKey.LessIsLexicographic` | handler.go:392-400 | Ascending is by the first character that differs, a prefix first. |
| `AffinityKey.UnparsedAsReceived` | handler.go:395-401 | A message that does not parse counts with its bytes as received. |
| `AffinityKey.HexRoundTrip` | handler.go:405 | The key text reads back as the hash and has no leading zero, so different hashes give different keys. |
| `AffinityKey.AffinityKey` | handler.go:380-405 | The loop gives the session id, nothing for no messages, and otherwise the hash of the one canonical message, or of the opening two, from the standard offset. |
| `AffinityKey.SlotFor` | pool.go:177-184 | The slot is in range for every key and every size the code can divide by, and congruent to the key's hash modulo the size. |
| `AffinityKey.Slot` | pool.go:177-184 | The code computes it. |
| `AffinityKey.SlotOfTwo` | pool.go:177-184 | In a pool of two it is the parity of one more than the sum of the key's bytes, so both slots are used. |
| `AffinityKey.KeyIsStable` | handler.go:374-405 | With at least two messages, appending turns and permuting object keys in the opening two leaves key and slot as they were. |
| `Routing.ConversationKeepsItsSlot` | pool.go:276-304 | In any run the affinity-routed calls of one conversation go through one slot's buffer in the order sent, although its later turns are longer and its keys permuted. |
| `Handler.Handling.Receive` | handler.go:134-200 | The decision tree: 405, read error, 415, corrupt body and pass-through are answered at once with their own reason, and exactly a decodable POST with messages to compress becomes one Compress call. |
| `Handler.CallsExactly` | handler.go:277-338 | A call is made if and only if the body is an object whose last "messages" is an array or null, and asks for those messages, with the model of the metadata or else the string that is the body's last "model", the settings read, and the key of the session and the messages. |
| `Handler.PassesOn` | handler.go:281-312 | Any other hook is passed through, labelled with its own provider and model if it has a body at all. |
| `Handler.Handling.Process` | handler.go:277-338 | The code makes a call for exactly those bodies and with exactly that request; otherwise it answers "allow" with a pass-through summary. |
| `Handler.Handling.Finish` | handler.go:339-372 | Errors and results not worth sending give "allow"; otherwise the messages of the parsed body are overwritten and sent. |
| `Handler.ModifyMeansSpliced` | handler.go:333-372 | "modify" exactly for a result with tokens saved and messages; the body then differs from the request's own in its messages only. The summary has the hook's provider and model and, for any result, its token numbers and cold flag. |
| `Service.ModifyIsOwnResult` | handler.go:277-372 | Over any run of handlers, pool and store: a "modify" body is the request's own with, for messages, the result its own Compress call returned, one a worker produced for those very messages. The settings written for that call are what the updates its struct met until it was marshalled made of those read, and the same if and only if these updates were harmless to them. |
| `Service.SentForJob` | pool.go:551-584 | A result returned is for the call's request with the settings its struct showed when it was marshalled. |
| `Service.WrittenValidExactly` | config.go:44-47 | Any request written and being read carries, if its handler read valid settings, valid ones if and only if the updates its struct met until it was marshalled left no bad value in its cells. |
| `SettingsSent.PoolConfigs` | pool.go:346-400 | Every step of the pool but the write keeps: what slots are working on and what jobs were answered with carries what was sent of their own settings struct. |
| `SettingsSent.WriteConfigs` | pool.go:551-562 | So does the write, when it sends what the job's own struct shows. |
| `Service.AnsweredAllowOrModify` | handler.go:134-221 | Every answered POST that is not a 415 is "allow" or "modify"; it has made a Compress call exactly if its messages are an array or null, and is "modify" exactly when that call returned a result with tokens saved and messages. |
| `Service.MetricsConserved` | metrics.go:73-129 | Over any interleaving: outcome, provider and model counts each sum to the requests recorded; every request is recorded, refused with 405 or still to be recorded; the guard on the active gauge never skips. |
| `Service.MetricsTellVisits` | metrics.go:98-158 | In any reachable state the count under any outcome, provider or model label is the number of requests recorded that ended in that way (as told from the request, its call and its answer), came from that provider or were for that model, and the token sums are those of the results their calls came back with. |
| `Service.ColdStartsBounded` | metrics.go:114-116 | The cold starts counted are at most the workers that got ready. |
| `MetricsCounters.Metrics.constructor` | metrics.go:63-70 | All counters start at zero, the minimum at infinity, and the object is balanced. |
| `MetricsCounters.Metrics.InboundStart` | metrics.go:73-81 | The object stays balanced, with one more request in flight. |
| `MetricsCounters.Metrics.InboundDone` | metrics.go:84-94 | The object stays balanced exactly if a request was in flight; the guard hides the case in which none was. |
| `MetricsCounters.Metrics.Record` | metrics.go:98-129 | The object stays balanced: each map sums to the requests, failures count the "error" outcomes, the tokens, the cold starts and the overhead of this sample are added, the minimum and maximum bound it and are it or what they were, and the inbound counters are left alone. |
| `MetricsCounters.RecordKeepsBalance` | metrics.go:98-129 | Recording keeps the maps' sums, the failures equal to the "error" outcome, and min * count <= sum <= max * count. |
| `MetricsCounters.MeanBetweenExtremes` | metrics.go:121-128 | In a balanced state the mean overhead lies between the extremes. |
| `MetricsCounters.TotalBump` | metrics.go:108-110 | Counting under any label, new or known, adds exactly one to the sum of a map. |
| `Exposition.ThreePassesAreOne` | metrics.go:291-296 | The three replacements, one after the other, escape each character once. |
| `Exposition.EscapesAsSpecified` | metrics.go:289-296 | Backslash, newline and quote become their two-character escapes, any other character stays, and text is escaped piece by piece. |
| `Exposition.LabelRoundTrip` | metrics.go:289-296 | An escaped label value, whatever follows it, reads back as itself. |
| `Exposition.DecimalRoundTrip` | metrics.go:265-267 | A count written in decimal reads back as itself. |
| `Exposition.AscendingUnique` | metrics.go:260-264 | The ascending order of a map's keys is unique, so the rendering does not depend on the order of ranging. |
| `Exposition.Labeled` | metrics.go:258-269 | The family rendered is its HELP and TYPE lines, one line per key of the map in ascending order, each key once, and a blank line, whatever order the map is ranged over in. |
| `Exposition.LineRoundTrip` | metrics.go:265-267 | A rendered line parses back to its label and count, whatever follows. |
| `Exposition.FamilyRoundTrip` | metrics.go:258-269 | A rendered family parses back to exactly its labels and counts, in order. |
| `Encoding.NormalizeTwice` | encoding.go:77-83 | Normalising a coding a second time changes nothing, whatever the lower-case mapping and the white space beyond ASCII are, as long as lowering twice is lowering once and makes no white space or punctuation. |
| `Encoding.NormalizeReads` | encoding.go:77-83 | Blanks around a coding, its case and whatever follows a semicolon do not matter; "identity" is no coding. |
| `Encoding.AdvertisedNamesRead` | encoding.go:46-56 | Splitting the advertised header gives back exactly the names, in order. |
| `Encoding.PlainName` | encoding.go:41-44 | Any name of lower-case letters other than "identity", as the service's own two are, is normalised and can stand in the list. |
| `Encoding.AcceptEncoding` | encoding.go:50-56 | The header built from the list of codecs reads as their names. |
| `Encoding.DecodeRequestBody` | encoding.go:85-104 | Unsupported exactly for a non-empty normalised coding not in the list; otherwise the first codec of that name decides; nothing to decode leaves the body. |

## Left out

- `PoolShutdown.ShutdownTerminates`: bounds the pool's own steps and, with `RestIsShutdown`, says where they end; that the scheduler takes them is not stated, and a write to a full stdin pipe (pool.go:560) is one step with no bound on its time.
- `PoolProgress.NeverStuckBeforeCancel`: says that a helpful step is enabled, not that a fair scheduler ever takes it.
- `PoolRefinement.AffinityInOrder`: is about the affinity channel; a keyed call that spills to the shared channel may overtake.
- `AffinityKey.KeyIsStable`: needs two messages, as a second one joins the hash of a one-message opening; distinct conversations are not claimed to get distinct keys.
- `SettingsRuns.ReadersSeePrefixes`: asks that every update be harmless after each of its fields, because `TornRead` shows that less is not enough.
- `MetricsCounters.Metrics.Record`: durations are real numbers, so floating-point rounding of the sum is not modelled.
- A decode writes one cell, and marshalling reads all cells of one struct, in one step each. In Go a read that overlaps such a write is a data race; what a string read in two halves could be is not modelled.
- The ready line and its reader are one step of the machine, apart from the queue of replies; the version a worker reports there is not recorded.
- Killing and waiting on a process is one step, and so is closing its stdin, the grace period and the wait.
- Exceptions in `_compress` between its list check and the cold flag, the dropping of an unusable `savings_profile`, `model_limit` and headroom's own `compress()`: the worker's function is a relation between requests and results.
- `Shutdown` is called once.
- The cap on how much of a request body is read: a body cut off there is one of the bodies that may fail to decode.
- JSON text, number formats, compact encoding without raw newlines, and gzip and zstd are functions passed in or assumed; a decode of a settings file gives back the number that was written.
- Text is a sequence of code points, lowered one by one; header values that are not valid UTF-8 are not modelled, and that Unicode's tables are `Encoding.Sound` is not proved.
- Case-insensitive matching of JSON field names: a body's keys are already resolved to fields.
- An atomic file write is all or nothing; making the directory is part of it.
- The version gate on `savings_profile` and the config handler's HTTP side; `preload` and `textEnabled`.
- `acceptsGzip` and the response's own compression; header plumbing; verbose log lines; stderr streaming.
- `scalar`, `fmtValue`, `round2` and the fixed list of families in `export`: only labelled families are rendered.
- `main.go`, listeners, signals, flags and `procattr_*.go`.
- Session ids and messages reach the affinity key in `Service` through a function given as a parameter; `Routing` joins the real key to the pool.
