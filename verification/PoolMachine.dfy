/** The worker pool as a machine of atomic steps (pool.go, with a worker process
    at the other end of each slot's pipes). All nondeterminism (scheduling, timers,
    what a process writes, which ready branch a select takes) is in the choice of
    the next action; `Apply` is then a function. */
module PoolMachine {
  import opened Protocol
  import opened SettingsValues
  import opened Wrappers

  type JobId = nat

  /** `good` is the compression function seen as a relation: the results a worker
      may produce for a request. With `strict` the process is the loop of worker.py
      and writes nothing but its one reply per request. */
  datatype Config = Config(
    size: nat,
    affinityEnabled: bool,
    route: string -> nat,
    good: (Request, Result) -> bool,
    strict: bool)

  ghost predicate WfConfig(cfg: Config) {
    cfg.size >= 1 && forall key :: cfg.route(key) < cfg.size
  }

  // ---------- Worker processes ----------

  /** The goroutine of readLine that blocks on the worker's stdout. */
  datatype Reader = NoReader | Blocked | Got(line: Option<Line>)

  /** One incarnation: the process, its two pipes, and the supervisor's view of it.
      `seen` lists the requests the process has taken off stdin. */
  datatype Worker = Worker(
    pid: nat,
    nextId: nat,
    seen: seq<In>,
    stdin: seq<In>,
    current: Option<In>,
    stdout: seq<Line>,
    reader: Reader,
    crashed: bool,
    served: bool)

  function FreshWorker(pid: nat): Worker {
    Worker(pid, 0, [], [], None, [], NoReader, false, false)
  }

  /** The request lines written to this incarnation so far, and the last of them. */
  function Written(w: Worker): seq<In> { w.seen + w.stdin }

  function LastWritten(w: Worker): Option<Request> {
    if Written(w) == [] then None else Some(Written(w)[|Written(w)| - 1].req)
  }

  function WrittenBy(worker: Option<Worker>): Option<Request> {
    if worker.Some? then LastWritten(worker.value) else None
  }

  datatype ProcessAction =
    | Consume                           // take the next request line
    | Answer(line: Line, reached: bool) // reply to it; `reached`: compress() was reached
    | Emit(stray: Line)                 // a line nobody asked for
    | Crash
    | ReaderGetsLine
    | ReaderGetsEof

  /** Each request reads one line. This is the id of the one that reads the next. */
  function NextRead(w: Worker): nat {
    if w.reader.Blocked? then w.nextId else w.nextId + 1
  }

  ghost predicate Answers(cfg: Config, seen: seq<In>, line: Line)
    requires line.OkLine?
  {
    exists k :: 0 <= k < |seen| && seen[k].id == line.id && cfg.good(seen[k].req, line.result)
  }

  /** A process never attributes to one request the result of another: an ok line is a
      result for the request it names, or names none that it has taken. The one name it
      may not guess is that of the request that will read the line, `reader`. */
  ghost predicate Honest(cfg: Config, seen: seq<In>, reader: nat, line: Line) {
    line.OkLine? ==>
      || Answers(cfg, seen, line)
      || (line.id != reader && forall k :: 0 <= k < |seen| ==> seen[k].id != line.id)
  }

  /** A reply of the worker.py loop: the id is echoed, and the result is flagged
      cold exactly when no earlier request of this process reached compress(). */
  ghost predicate Conforms(cfg: Config, served: bool, request: In, line: Line, reached: bool) {
    match line
    case OkLine(id, result) =>
      id == request.id && cfg.good(request.req, result) && reached && result.cold == !served
    case ErrLine(id) => id == request.id
    case NoResultLine(id) => !cfg.strict
    case JunkLine => !cfg.strict
  }

  ghost predicate ProcessEnabled(cfg: Config, w: Worker, a: ProcessAction) {
    match a
    case Consume => !w.crashed && w.current.None? && w.stdin != []
    case Answer(line, reached) =>
      !w.crashed && w.current.Some? && Conforms(cfg, w.served, w.current.value, line, reached)
    case Emit(stray) => !w.crashed && !cfg.strict && Honest(cfg, w.seen, NextRead(w) + |w.stdout|, stray)
    case Crash => !w.crashed
    case ReaderGetsLine => w.reader.Blocked? && w.stdout != []
    case ReaderGetsEof => w.reader.Blocked? && w.stdout == [] && w.crashed
  }

  function ProcessApply(cfg: Config, w: Worker, a: ProcessAction): Worker
    requires ProcessEnabled(cfg, w, a)
  {
    match a
    case Consume => w.(current := Some(w.stdin[0]), seen := w.seen + [w.stdin[0]], stdin := w.stdin[1..])
    case Answer(line, reached) =>
      w.(current := None, stdout := w.stdout + [line], served := w.served || reached)
    case Emit(stray) => w.(stdout := w.stdout + [stray])
    case Crash => w.(crashed := true)
    case ReaderGetsLine => w.(reader := Got(Some(w.stdout[0])), stdout := w.stdout[1..])
    case ReaderGetsEof => w.(reader := Got(None))
  }

  // ---------- Slots ----------

  /** What a slot goes on to do when spawn returns. */
  datatype Then = AtStart | ForJob(job: JobId) | ForReply(owed: JobId, out: Outcome)

  datatype Phase =
    | Spawning(k: Then)               // top of spawn's loop: looks at the pool context
    | Starting(k: Then)               // about to start the process
    | AwaitReady(k: Then)             // process started, waiting for its ready line
    | ReapFailed(k: Then)             // it never got ready: kill and wait
    | Backoff(k: Then)
    | Idle                            // runSlot's select
    | Taken(job: JobId)               // received; looks at its worker
    | Unavailable(job: JobId)         // spawn returned nil for a received job
    | Calling(job: JobId)             // counted busy, about to write
    | Reading(job: JobId)             // request written, select in readLine
    | Done(job: JobId, out: Outcome)  // do returned, still counted busy
    | Recycle(job: JobId, out: Outcome)
    | Reply(job: JobId, out: Outcome)
    | Closing                         // deferred worker shutdown
    | Exited

  datatype Slot = Slot(phase: Phase, worker: Option<Worker>)

  /** The job a slot is holding, if any. */
  function Holds(phase: Phase): Option<JobId> {
    match phase
    case Spawning(k) => HeldBy(k)
    case Starting(k) => HeldBy(k)
    case AwaitReady(k) => HeldBy(k)
    case ReapFailed(k) => HeldBy(k)
    case Backoff(k) => HeldBy(k)
    case Idle => None
    case Taken(c) => Some(c)
    case Unavailable(c) => Some(c)
    case Calling(c) => Some(c)
    case Reading(c) => Some(c)
    case Done(c, _) => Some(c)
    case Recycle(c, _) => Some(c)
    case Reply(c, _) => Some(c)
    case Closing => None
    case Exited => None
  }

  function HeldBy(k: Then): Option<JobId> {
    match k
    case AtStart => None
    case ForJob(c) => Some(c)
    case ForReply(c, _) => Some(c)
  }

  predicate InCall(phase: Phase) {
    phase.Calling? || phase.Reading? || phase.Done?
  }

  /** Where spawn's caller continues; `up` tells whether spawn returned a worker. */
  function AfterSpawn(k: Then, up: bool): Phase {
    match k
    case AtStart => Idle
    case ForJob(c) => if up then Taken(c) else Unavailable(c)
    case ForReply(c, out) => Reply(c, out)
  }

  // ---------- Jobs and their callers ----------

  datatype Pc =
    | Checking
    | TryAffinity
    | Offering
    | CountHit
    | CountSpill
    | Waiting
    | Returned(result: Outcome)

  /** Where a job is. This, and the fields below it in `Job`, are history: no step
      is guarded by them. */
  datatype Loc = Unsent | Buffered(k: nat) | InSlot(i: nat) | InDrain | Answered

  datatype Route = NoRoute | ByAffinity | BySpill | ByShared

  datatype Job = Job(
    req: Request,
    pc: Pc,
    ctxDone: bool,
    resp: seq<Outcome>,       // the reply channel, capacity 1
    loc: Loc,
    route: Route,
    late: bool,               // its send landed after its slot's buffer was drained
    sends: nat,               // replies ever sent to it
    answer: Option<Outcome>,  // the last of them
    servedBy: nat,            // process that produced it, when it is a result
    written: Option<Request>) // the request as it was written to that process

  function NewJob(req: Request): Job {
    Job(req, Checking, false, [], Unsent, NoRoute, false, 0, None, 0, None)
  }

  /** `j.resp <- out`, by a slot with this worker. */
  function WithReply(job: Job, out: Outcome, worker: Option<Worker>): Job {
    job.(resp := job.resp + [out], loc := Answered, sends := job.sends + 1, answer := Some(out),
         servedBy := if worker.Some? then worker.value.pid else 0,
         written := WrittenBy(worker))
  }

  // ---------- The pool ----------

  datatype Shutting =
    | NotYet
    | WaitSlots
    | Drain(k: nat)
    | DrainReply(at: nat, job: JobId)
    | Finished

  /** Per slot, the affinity jobs sent to it and those received from its buffer, in
      order; how many calls had begun when the pool was cancelled; and per process,
      its slot, whether it got ready, and the job it flagged a cold result for. */
  datatype History = History(
    sent: map<nat, seq<JobId>>,
    taken: map<nat, seq<JobId>>,
    jobsAtCancel: nat,
    owner: map<nat, nat>,
    ready: set<nat>,
    coldOf: map<nat, JobId>)

  function Log(log: map<nat, seq<JobId>>, k: nat): seq<JobId> {
    if k in log then log[k] else []
  }

  function Logged(log: map<nat, seq<JobId>>, k: nat, c: JobId): map<nat, seq<JobId>> {
    log[k := Log(log, k) + [c]]
  }

  datatype State = State(
    slots: seq<Slot>,
    bufs: seq<seq<JobId>>,
    jobs: seq<Job>,
    busy: int,
    hits: int,
    spills: int,
    waits: seq<nat>,          // per started process: times it has been waited on
    shut: Shutting,
    hist: History)

  function Init(cfg: Config): State {
    State(
      seq(cfg.size, i => Slot(Spawning(AtStart), None)), seq(cfg.size, i => []), [],
      0, 0, 0, [], NotYet,
      History(map[], map[], 0, map[], {}, map[]))
  }

  /** The pool context. */
  predicate Cancelled(s: State) { s.shut != NotYet }

  predicate Affined(cfg: Config, req: Request) { cfg.affinityEnabled && req.key != "" }

  /** Shutdown is past the buffer of slot k. */
  predicate DrainedPast(s: State, k: nat) {
    match s.shut
    case Drain(at) => k < at
    case DrainReply(at, _) => k < at
    case Finished => true
    case _ => false
  }

  datatype SlotAction =
    | SpawnCheck
    | StartOk
    | StartFails
    | ReadyOk
    | ReadyFails
    | ReapFailedStart
    | BackoffTimer
    | BackoffCancelled
    | IdleCancelled
    | TakeBuffered
    | Begin
    | WriteOk(config: Settings)  // the settings as they are when the request is marshalled
    | WriteFails
    | ReadGot
    | ReadTimeout
    | ReadCancelled
    | EndCall
    | KillWorker
    | SendReply
    | SendUnavailable
    | CloseWorker

  datatype CallerAction =
    | Check
    | SendAffinity
    | AddHit
    | Meet(slot: nat)     // rendezvous on the shared channel
    | AddSpill
    | Refused             // pool context while offering
    | GiveUp              // own context while offering
    | Collect
    | Abandon             // own context while waiting
    | ContextFires

  datatype ShutAction = Cancel | SlotsGone | DrainTake | DrainSend | DrainNext

  datatype Action =
    | NewCall(req: Request)
    | OfCaller(c: JobId, call: CallerAction)
    | OfSlot(i: nat, step: SlotAction)
    | OfProcess(p: nat, proc: ProcessAction)
    | OfShutdown(shut: ShutAction)

  ghost predicate SlotEnabled(s: State, i: nat, a: SlotAction)
    requires i < |s.slots|
  {
    var Slot(phase, worker) := s.slots[i];
    match a
    case SpawnCheck => phase.Spawning?
    case StartOk => phase.Starting?
    case StartFails => phase.Starting?
    case ReadyOk => phase.AwaitReady? && worker.Some? && !worker.value.crashed
    case ReadyFails => phase.AwaitReady?
    case ReapFailedStart => phase.ReapFailed?
    case BackoffTimer => phase.Backoff?
    case BackoffCancelled => phase.Backoff? && Cancelled(s)
    case IdleCancelled => phase.Idle? && Cancelled(s)
    case TakeBuffered => phase.Idle? && i < |s.bufs| && s.bufs[i] != [] && s.bufs[i][0] < |s.jobs|
    case Begin => phase.Taken?
    case WriteOk(_) => phase.Calling? && worker.Some? && !worker.value.crashed && phase.job < |s.jobs|
    case WriteFails => phase.Calling?
    case ReadGot => phase.Reading? && worker.Some? && worker.value.reader.Got?
    case ReadTimeout => phase.Reading?                    // the hard cap
    case ReadCancelled => phase.Reading? && Cancelled(s)  // its parent, the pool context
    case EndCall => phase.Done?
    case KillWorker => phase.Recycle?
    case SendReply => phase.Reply? && phase.job < |s.jobs| && |s.jobs[phase.job].resp| < 1
    case SendUnavailable => phase.Unavailable? && phase.job < |s.jobs| && |s.jobs[phase.job].resp| < 1
    case CloseWorker => phase.Closing?
  }

  /** Count one wait on the slot's process, if it has one. */
  function Reap(waits: seq<nat>, worker: Option<Worker>): seq<nat> {
    if worker.Some? && worker.value.pid < |waits|
    then waits[worker.value.pid := waits[worker.value.pid] + 1] else waits
  }

  function UsedId(worker: Option<Worker>): Option<Worker> {
    match worker
    case None => None
    case Some(w) => Some(w.(nextId := w.nextId + 1))
  }

  ghost function Goto(s: State, i: nat, phase: Phase, worker: Option<Worker>): State
    requires i < |s.slots|
  {
    s.(slots := s.slots[i := Slot(phase, worker)])
  }

  ghost function SlotApply(cfg: Config, s: State, i: nat, a: SlotAction): State
    requires i < |s.slots| && SlotEnabled(s, i, a)
  {
    var Slot(phase, worker) := s.slots[i];
    match a
    case SpawnCheck =>
      Goto(s, i, if Cancelled(s) then AfterSpawn(phase.k, false) else Starting(phase.k), worker)
    case StartOk =>
      Goto(s, i, AwaitReady(phase.k), Some(FreshWorker(|s.waits|)))
        .(waits := s.waits + [0],
          hist := s.hist.(owner := s.hist.owner[|s.waits| := i]))
    case StartFails => Goto(s, i, Backoff(phase.k), worker)
    case ReadyOk =>
      Goto(s, i, AfterSpawn(phase.k, true), worker)
        .(hist := s.hist.(ready := s.hist.ready + {worker.value.pid}))
    case ReadyFails => Goto(s, i, ReapFailed(phase.k), worker)
    case ReapFailedStart => Goto(s, i, Backoff(phase.k), None).(waits := Reap(s.waits, worker))
    case BackoffTimer => Goto(s, i, Spawning(phase.k), worker)
    case BackoffCancelled => Goto(s, i, AfterSpawn(phase.k, false), worker)
    case IdleCancelled => Goto(s, i, Closing, worker)
    case TakeBuffered =>
      var c := s.bufs[i][0];
      Goto(s, i, Taken(c), worker)
        .(bufs := s.bufs[i := s.bufs[i][1..]],
          jobs := s.jobs[c := s.jobs[c].(loc := InSlot(i))],
          hist := s.hist.(taken := Logged(s.hist.taken, i, c)))
    case Begin =>
      if worker.None? then Goto(s, i, Spawning(ForJob(phase.job)), worker)
      else Goto(s, i, Calling(phase.job), worker).(busy := s.busy + 1)
    case WriteOk(config) =>
      var w := worker.value;
      var id := w.nextId + 1;
      Goto(s, i, Reading(phase.job),
           Some(w.(nextId := id, stdin := w.stdin + [In(id, s.jobs[phase.job].req.(config := config))],
                   reader := Blocked)))
    case WriteFails => Goto(s, i, Done(phase.job, Failed(WorkerFailed)), UsedId(worker))
    case ReadGot =>
      var w := worker.value;
      var out := if w.reader.line.Some? then Accept(w.reader.line.value, w.nextId, i) else Failed(WorkerFailed);
      Goto(s, i, Done(phase.job, out), Some(w.(reader := NoReader)))
    case ReadTimeout => Goto(s, i, Done(phase.job, Failed(WorkerFailed)), worker)
    case ReadCancelled => Goto(s, i, Done(phase.job, Failed(WorkerFailed)), worker)
    case EndCall =>
      Goto(s, i, if phase.out.Ok? then Reply(phase.job, phase.out) else Recycle(phase.job, phase.out), worker)
        .(busy := s.busy - 1)
    case KillWorker =>
      Goto(s, i, Spawning(ForReply(phase.job, phase.out)), None).(waits := Reap(s.waits, worker))
    case SendReply =>
      Goto(s, i, Idle, worker)
        .(jobs := s.jobs[phase.job := WithReply(s.jobs[phase.job], phase.out, worker)])
    case SendUnavailable =>
      Goto(s, i, Closing, worker)
        .(jobs := s.jobs[phase.job := WithReply(s.jobs[phase.job], Failed(WorkerUnavailable), None)])
    case CloseWorker => Goto(s, i, Exited, None).(waits := Reap(s.waits, worker))
  }

  predicate CallerEnabled(cfg: Config, s: State, c: JobId, a: CallerAction)
    requires c < |s.jobs|
  {
    var job := s.jobs[c];
    match a
    case Check => job.pc.Checking?
    case SendAffinity => job.pc.TryAffinity? && cfg.route(job.req.key) < |s.bufs|
    case AddHit => job.pc.CountHit?
    case Meet(i) => job.pc.Offering? && i < |s.slots| && s.slots[i].phase.Idle?
    case AddSpill => job.pc.CountSpill?
    case Refused => job.pc.Offering? && Cancelled(s)
    case GiveUp => job.pc.Offering? && job.ctxDone
    case Collect => job.pc.Waiting? && job.resp != []
    case Abandon => job.pc.Waiting? && job.ctxDone
    case ContextFires => !job.ctxDone
  }

  ghost function SetJob(s: State, c: JobId, job: Job): State
    requires c < |s.jobs|
  {
    s.(jobs := s.jobs[c := job])
  }

  ghost function CallerApply(cfg: Config, s: State, c: JobId, a: CallerAction): State
    requires c < |s.jobs| && CallerEnabled(cfg, s, c, a)
  {
    var job := s.jobs[c];
    match a
    case Check =>
      SetJob(s, c, job.(pc :=
        if Cancelled(s) then Returned(Failed(PoolShuttingDown))
        else if Affined(cfg, job.req) then TryAffinity else Offering))
    case SendAffinity =>
      var k := cfg.route(job.req.key);
      if |s.bufs[k]| < 1 then
        SetJob(s, c, job.(pc := CountHit, loc := Buffered(k), route := ByAffinity, late := DrainedPast(s, k)))
          .(bufs := s.bufs[k := s.bufs[k] + [c]],
            hist := s.hist.(sent := Logged(s.hist.sent, k, c)))
      else SetJob(s, c, job.(pc := Offering))
    case AddHit => SetJob(s, c, job.(pc := Waiting)).(hits := s.hits + 1)
    case Meet(i) =>
      var affined := Affined(cfg, job.req);
      SetJob(s, c, job.(pc := if affined then CountSpill else Waiting, loc := InSlot(i),
                        route := if affined then BySpill else ByShared))
        .(slots := s.slots[i := s.slots[i].(phase := Taken(c))])
    case AddSpill => SetJob(s, c, job.(pc := Waiting)).(spills := s.spills + 1)
    case Refused => SetJob(s, c, job.(pc := Returned(Failed(PoolShuttingDown))))
    case GiveUp => SetJob(s, c, job.(pc := Returned(Failed(CallerGone))))
    case Collect => SetJob(s, c, job.(pc := Returned(job.resp[0]), resp := job.resp[1..]))
    case Abandon => SetJob(s, c, job.(pc := Returned(Failed(CallerGone))))
    case ContextFires => SetJob(s, c, job.(ctxDone := true))
  }

  ghost predicate ShutEnabled(s: State, a: ShutAction) {
    match a
    case Cancel => s.shut.NotYet?
    case SlotsGone => s.shut.WaitSlots? && forall i :: 0 <= i < |s.slots| ==> s.slots[i].phase.Exited?
    case DrainTake =>
      s.shut.Drain? && s.shut.k < |s.bufs| && s.bufs[s.shut.k] != [] && s.bufs[s.shut.k][0] < |s.jobs|
    case DrainSend => s.shut.DrainReply? && s.shut.job < |s.jobs| && |s.jobs[s.shut.job].resp| < 1
    case DrainNext => s.shut.Drain? && s.shut.k < |s.bufs| && s.bufs[s.shut.k] == []
  }

  ghost function ShutApply(s: State, a: ShutAction): State
    requires ShutEnabled(s, a)
  {
    match a
    case Cancel => s.(shut := WaitSlots, hist := s.hist.(jobsAtCancel := |s.jobs|))
    case SlotsGone => s.(shut := Drain(0))
    case DrainTake =>
      var k := s.shut.k;
      var c := s.bufs[k][0];
      SetJob(s, c, s.jobs[c].(loc := InDrain))
        .(shut := DrainReply(k, c), bufs := s.bufs[k := s.bufs[k][1..]],
          hist := s.hist.(taken := Logged(s.hist.taken, k, c)))
    case DrainSend =>
      SetJob(s, s.shut.job, WithReply(s.jobs[s.shut.job], Failed(PoolShuttingDown), None))
        .(shut := Drain(s.shut.at))
    case DrainNext => s.(shut := if s.shut.k + 1 < |s.bufs| then Drain(s.shut.k + 1) else Finished)
  }

  ghost predicate Enabled(cfg: Config, s: State, a: Action) {
    match a
    case NewCall(_) => true
    case OfCaller(c, call) => c < |s.jobs| && CallerEnabled(cfg, s, c, call)
    case OfSlot(i, step) => i < |s.slots| && SlotEnabled(s, i, step)
    case OfProcess(i, proc) =>
      i < |s.slots| && s.slots[i].worker.Some? && ProcessEnabled(cfg, s.slots[i].worker.value, proc)
    case OfShutdown(shut) => ShutEnabled(s, shut)
  }

  /** A cold result remembers which job it was produced for. */
  function NoteCold(hist: History, slot: Slot, a: ProcessAction): History {
    if a.Answer? && a.line.OkLine? && a.line.result.cold && slot.worker.Some? && Holds(slot.phase).Some?
    then hist.(coldOf := hist.coldOf[slot.worker.value.pid := Holds(slot.phase).value]) else hist
  }

  ghost function ProcessStep(cfg: Config, s: State, i: nat, a: ProcessAction): State
    requires i < |s.slots| && s.slots[i].worker.Some? && ProcessEnabled(cfg, s.slots[i].worker.value, a)
  {
    Goto(s, i, s.slots[i].phase, Some(ProcessApply(cfg, s.slots[i].worker.value, a)))
      .(hist := NoteCold(s.hist, s.slots[i], a))
  }

  ghost function Apply(cfg: Config, s: State, a: Action): State
    requires Enabled(cfg, s, a)
  {
    match a
    case NewCall(req) => s.(jobs := s.jobs + [NewJob(req)])
    case OfCaller(c, call) => CallerApply(cfg, s, c, call)
    case OfSlot(i, step) => SlotApply(cfg, s, i, step)
    case OfProcess(i, proc) => ProcessStep(cfg, s, i, proc)
    case OfShutdown(shut) => ShutApply(s, shut)
  }

  // ---------- Runs ----------

  ghost predicate Step(cfg: Config, s: State, a: Action, t: State) {
    Enabled(cfg, s, a) && t == Apply(cfg, s, a)
  }

  /** `states` is a run of the pool under the schedule `actions`. */
  ghost predicate IsRun(cfg: Config, states: seq<State>, actions: seq<Action>) {
    && |states| == |actions| + 1
    && states[0] == Init(cfg)
    && forall n :: 0 <= n < |actions| ==>
         Enabled(cfg, states[n], actions[n]) && states[n + 1] == Apply(cfg, states[n], actions[n])
  }

  ghost predicate Reachable(cfg: Config, s: State) {
    exists states, actions :: IsRun(cfg, states, actions) && states[|states| - 1] == s
  }

  lemma ReachStep(cfg: Config, s: State, a: Action)
    requires Reachable(cfg, s) && Enabled(cfg, s, a)
    ensures Reachable(cfg, Apply(cfg, s, a))
  {
    var states, actions :| IsRun(cfg, states, actions) && states[|states| - 1] == s;
    var states' := states + [Apply(cfg, s, a)];
    var actions' := actions + [a];
    assert IsRun(cfg, states', actions') by {
      forall n | 0 <= n < |actions'|
        ensures Enabled(cfg, states'[n], actions'[n]) && states'[n + 1] == Apply(cfg, states'[n], actions'[n])
      {
        if n < |actions| { assert states'[n] == states[n] && states'[n + 1] == states[n + 1]; }
      }
    }
    assert states'[|states'| - 1] == Apply(cfg, s, a);
  }

  lemma ReachInit(cfg: Config)
    ensures Reachable(cfg, Init(cfg))
  {
    var states := [Init(cfg)];
    assert IsRun(cfg, states, []) && states[|states| - 1] == Init(cfg);
  }
}
