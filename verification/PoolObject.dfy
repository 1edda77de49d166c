/** The pool as the object it is (pool.go): its methods change the fields in place,
    one atomic stretch of code each, and every one is proved to be the corresponding
    step of the machine, so that all that holds of every run of the machine holds of
    any interleaving of these calls. */
module PoolObject {
  import opened PoolInvariant
  import opened PoolLedger
  import opened PoolMachine
  import opened PoolRuns
  import opened PoolShutdown
  import opened Protocol
  import opened SettingsValues
  import opened Wrappers

  class Pool {
    const cfg: Config
    var slots: seq<Slot>
    var bufs: seq<seq<JobId>>
    var jobs: seq<Job>
    var busy: int
    var hits: int
    var spills: int
    var waits: seq<nat>
    var shut: Shutting
    var hist: History         // what has happened so far; steers nothing

    function View(): State
      reads this
    {
      State(slots, bufs, jobs, busy, hits, spills, waits, shut, hist)
    }

    /** Some run of the machine leads here. */
    ghost predicate Valid()
      reads this
    {
      WfConfig(cfg) && Reachable(cfg, View())
    }

    /** This is where the code stands and the step it may take next. */
    ghost predicate Ready(a: Action)
      reads this
    {
      Valid() && Enabled(cfg, View(), a)
    }

    twostate predicate Did(a: Action)
      requires old(Ready(a))
      reads this
    {
      Valid() && View() == Apply(cfg, old(View()), a)
    }

    constructor (cfg: Config)
      requires WfConfig(cfg)
      ensures this.cfg == cfg && Valid() && View() == Init(cfg)
    {
      this.cfg := cfg;
      slots := seq(cfg.size, i => Slot(Spawning(AtStart), None));
      bufs := seq(cfg.size, i => []);
      jobs, busy, hits, spills, waits, shut := [], 0, 0, 0, [], NotYet;
      hist := History(map[], map[], 0, map[], {}, map[]);
      new;
      ReachInit(cfg);
    }

    // ---------- Compress and dispatch ----------

    method Submit(req: Request) returns (c: JobId)
      requires Ready(NewCall(req))
      modifies `jobs
      ensures Did(NewCall(req)) && c == |old(jobs)| && jobs == old(jobs) + [jobs[c]]
      ensures jobs[c].req == req && jobs[c].pc.Checking? && jobs[c].loc.Unsent? && jobs[c].resp == []
    {
      ReachStep(cfg, View(), NewCall(req));
      c := |jobs|;
      jobs := jobs + [NewJob(req)];
    }

    method LookAtContext(c: JobId)
      requires Ready(OfCaller(c, Check))
      modifies `jobs
      ensures Did(OfCaller(c, Check))
      ensures c < |jobs| && (jobs[c].pc == Returned(Failed(PoolShuttingDown)) <==> old(shut) != NotYet)
      ensures jobs[c].pc.TryAffinity? <==> old(shut) == NotYet && cfg.affinityEnabled && jobs[c].req.key != ""
      ensures jobs[c].pc.Offering? <==> old(shut) == NotYet && (!cfg.affinityEnabled || jobs[c].req.key == "")
    {
      ReachStep(cfg, View(), OfCaller(c, Check));
      if shut != NotYet {
        jobs := jobs[c := jobs[c].(pc := Returned(Failed(PoolShuttingDown)))];
      } else if cfg.affinityEnabled && jobs[c].req.key != "" {
        jobs := jobs[c := jobs[c].(pc := TryAffinity)];
      } else {
        jobs := jobs[c := jobs[c].(pc := Offering)];
      }
    }

    /** The non-blocking send. */
    method TrySend(c: JobId) returns (sent: bool)
      requires Ready(OfCaller(c, SendAffinity))
      modifies `jobs, `bufs, `hist
      ensures Did(OfCaller(c, SendAffinity))
      ensures var k := cfg.route(old(jobs)[c].req.key);
              && (sent <==> old(bufs[k]) == [])
              && c < |jobs| && bufs == (if sent then old(bufs)[k := [c]] else old(bufs))
              && (if sent then jobs[c].pc.CountHit? && jobs[c].loc == Buffered(k) && jobs[c].req == old(jobs)[c].req
                  else jobs[c] == old(jobs)[c].(pc := Offering))
    {
      ReachStep(cfg, View(), OfCaller(c, SendAffinity));
      var k := cfg.route(jobs[c].req.key);
      sent := |bufs[k]| < 1;
      if sent {
        assert bufs[k] + [c] == [c];
        jobs := jobs[c := jobs[c].(pc := CountHit, loc := Buffered(k), route := ByAffinity,
                                   late := DrainedPast(View(), k))];
        bufs := bufs[k := bufs[k] + [c]];
        hist := hist.(sent := Logged(hist.sent, k, c));
      } else {
        jobs := jobs[c := jobs[c].(pc := Offering)];
      }
    }

    method CountAffinityHit(c: JobId)
      requires Ready(OfCaller(c, AddHit))
      modifies `jobs, `hits
      ensures Did(OfCaller(c, AddHit))
      ensures hits == old(hits) + 1 && c < |jobs| && jobs[c].route.ByAffinity?
      ensures jobs[c] == old(jobs)[c].(pc := Waiting)
    {
      ReachStep(cfg, View(), OfCaller(c, AddHit));
      JobLooksSane(cfg, View(), c);
      hits := hits + 1;
      jobs := jobs[c := jobs[c].(pc := Waiting)];
    }

    /** Caller c and the idle slot i meet on the shared channel. */
    method HandOver(c: JobId, i: nat)
      requires Ready(OfCaller(c, Meet(i)))
      modifies `jobs, `slots
      ensures Did(OfCaller(c, Meet(i)))
      ensures c < |jobs| == |old(jobs)| && old(jobs)[c].loc.Unsent? && jobs[c].loc == InSlot(i)
      ensures i < |slots| && old(slots)[i].phase.Idle? && slots[i].phase == Taken(c)
      ensures jobs[c].pc == if cfg.affinityEnabled && jobs[c].req.key != "" then CountSpill else Waiting
    {
      ReachStep(cfg, View(), OfCaller(c, Meet(i)));
      JobLooksSane(cfg, View(), c);
      slots := slots[i := slots[i].(phase := Taken(c))];
      if cfg.affinityEnabled && jobs[c].req.key != "" {
        jobs := jobs[c := jobs[c].(pc := CountSpill, loc := InSlot(i), route := BySpill)];
      } else {
        jobs := jobs[c := jobs[c].(pc := Waiting, loc := InSlot(i), route := ByShared)];
      }
    }

    method CountAffinitySpill(c: JobId)
      requires Ready(OfCaller(c, AddSpill))
      modifies `jobs, `spills
      ensures Did(OfCaller(c, AddSpill))
      ensures spills == old(spills) + 1 && c < |jobs| && jobs[c].route.BySpill?
      ensures cfg.affinityEnabled && jobs[c].req.key != "" && jobs[c] == old(jobs)[c].(pc := Waiting)
    {
      ReachStep(cfg, View(), OfCaller(c, AddSpill));
      JobLooksSane(cfg, View(), c);
      spills := spills + 1;
      jobs := jobs[c := jobs[c].(pc := Waiting)];
    }

    /** The two ways out of an offer nobody takes: the pool's context, or the caller's. */
    method StopOffering(c: JobId, poolGone: bool)
      requires Ready(OfCaller(c, if poolGone then Refused else GiveUp))
      modifies `jobs
      ensures Did(OfCaller(c, if poolGone then Refused else GiveUp))
      ensures c < |jobs| && jobs[c].loc.Unsent? && jobs[c].sends == 0
      ensures jobs[c].pc == Returned(Failed(if poolGone then PoolShuttingDown else CallerGone))
      ensures if poolGone then shut != NotYet else old(jobs)[c].ctxDone
    {
      ReachStep(cfg, View(), OfCaller(c, if poolGone then Refused else GiveUp));
      JobLooksSane(cfg, View(), c);
      jobs := jobs[c := jobs[c].(pc := Returned(Failed(if poolGone then PoolShuttingDown else CallerGone)))];
    }

    method ReceiveReply(c: JobId) returns (out: Outcome)
      requires Ready(OfCaller(c, Collect))
      modifies `jobs
      ensures Did(OfCaller(c, Collect))
      ensures c < |jobs| == |old(jobs)| && old(jobs)[c].resp == [out]
      ensures jobs[c].pc == Returned(out) && jobs[c].resp == []
      ensures GoodOutcome(cfg, jobs[c].req, jobs[c].written, out)
    {
      ReachStep(cfg, View(), OfCaller(c, Collect));
      ReplyIsOwn(cfg, View(), c);
      out := jobs[c].resp[0];
      jobs := jobs[c := jobs[c].(pc := Returned(out), resp := jobs[c].resp[1..])];
    }

    method AbandonWait(c: JobId)
      requires Ready(OfCaller(c, Abandon))
      modifies `jobs
      ensures Did(OfCaller(c, Abandon))
      ensures c < |jobs| == |old(jobs)|
      ensures old(jobs)[c].ctxDone && jobs[c] == old(jobs)[c].(pc := Returned(Failed(CallerGone)))
    {
      ReachStep(cfg, View(), OfCaller(c, Abandon));
      jobs := jobs[c := jobs[c].(pc := Returned(Failed(CallerGone)))];
    }

    method CancelCaller(c: JobId)
      requires Ready(OfCaller(c, ContextFires))
      modifies `jobs
      ensures Did(OfCaller(c, ContextFires))
    {
      ReachStep(cfg, View(), OfCaller(c, ContextFires));
      jobs := jobs[c := jobs[c].(ctxDone := true)];
    }

    // ---------- spawn and startWorker ----------

    method LookBeforeStart(i: nat)
      requires Ready(OfSlot(i, SpawnCheck))
      modifies `slots
      ensures Did(OfSlot(i, SpawnCheck))
      ensures i < |slots| && (slots[i].phase.Starting? <==> old(shut) == NotYet)
      ensures old(shut) != NotYet ==> GivesUp(old(slots)[i].phase.k, slots[i].phase)
    {
      ReachStep(cfg, View(), OfSlot(i, SpawnCheck));
      var k := slots[i].phase.k;
      if shut != NotYet {
        slots := slots[i := slots[i].(phase := AfterSpawn(k, false))];
      } else {
        slots := slots[i := slots[i].(phase := Starting(k))];
      }
    }

    /** cmd.Start: on success there is a new process to account for. */
    method StartProcess(i: nat, ok: bool)
      requires Ready(OfSlot(i, if ok then StartOk else StartFails))
      modifies `slots, `waits, `hist
      ensures Did(OfSlot(i, if ok then StartOk else StartFails))
      ensures ok ==>
                && i < |slots| && slots[i].phase == AwaitReady(old(slots)[i].phase.k) && waits == old(waits) + [0]
                && slots[i].worker == Some(Worker(|old(waits)|, 0, [], [], None, [], NoReader, false, false))
      ensures !ok ==> i < |slots| && slots[i].phase == Backoff(old(slots)[i].phase.k) && waits == old(waits)
    {
      ReachStep(cfg, View(), OfSlot(i, if ok then StartOk else StartFails));
      var k := slots[i].phase.k;
      if ok {
        slots := slots[i := Slot(AwaitReady(k), Some(FreshWorker(|waits|)))];
        hist := hist.(owner := hist.owner[|waits| := i]);
        waits := waits + [0];
      } else {
        slots := slots[i := slots[i].(phase := Backoff(k))];
      }
    }

    method AwaitReadyLine(i: nat, ready: bool)
      requires Ready(OfSlot(i, if ready then ReadyOk else ReadyFails))
      modifies `slots, `hist
      ensures Did(OfSlot(i, if ready then ReadyOk else ReadyFails))
      ensures i < |slots| && slots[i].worker == old(slots[i].worker)
      ensures slots[i].phase.ReapFailed? <==> !ready
      ensures ready ==> slots[i].worker.Some? && hist.ready == old(hist.ready) + {slots[i].worker.value.pid}
      ensures ready ==>
                match old(slots[i].phase).k
                case AtStart => slots[i].phase == Idle
                case ForJob(c) => slots[i].phase == Taken(c)
                case ForReply(c, out) => slots[i].phase == Reply(c, out)
    {
      ReachStep(cfg, View(), OfSlot(i, if ready then ReadyOk else ReadyFails));
      var k := slots[i].phase.k;
      if ready {
        hist := hist.(ready := hist.ready + {slots[i].worker.value.pid});
        slots := slots[i := slots[i].(phase := AfterSpawn(k, true))];
      } else {
        slots := slots[i := slots[i].(phase := ReapFailed(k))];
      }
    }

    method KillUnready(i: nat)
      requires Ready(OfSlot(i, ReapFailedStart))
      modifies `slots, `waits
      ensures Did(OfSlot(i, ReapFailedStart))
      ensures i < |slots| && slots[i].worker.None? && old(slots[i].worker).Some?
      ensures WaitedOn(old(slots[i].worker), old(waits), waits)
    {
      ReachStep(cfg, View(), OfSlot(i, ReapFailedStart));
      WorkerLooksUnreaped(cfg, View(), i);
      waits := Reap(waits, slots[i].worker);
      slots := slots[i := Slot(Backoff(slots[i].phase.k), None)];
    }

    method BackOff(i: nat, timer: bool)
      requires Ready(OfSlot(i, if timer then BackoffTimer else BackoffCancelled))
      modifies `slots
      ensures Did(OfSlot(i, if timer then BackoffTimer else BackoffCancelled))
      ensures !timer ==> shut != NotYet
      ensures i < |slots|
      ensures if timer then slots[i].phase == Spawning(old(slots)[i].phase.k)
              else GivesUp(old(slots)[i].phase.k, slots[i].phase)
    {
      ReachStep(cfg, View(), OfSlot(i, if timer then BackoffTimer else BackoffCancelled));
      var k := slots[i].phase.k;
      slots := slots[i := slots[i].(phase := if timer then Spawning(k) else AfterSpawn(k, false))];
    }

    // ---------- runSlot and do ----------

    method LeaveLoop(i: nat)
      requires Ready(OfSlot(i, IdleCancelled))
      modifies `slots
      ensures Did(OfSlot(i, IdleCancelled))
      ensures shut != NotYet && i < |slots| && slots[i].phase.Closing?
    {
      ReachStep(cfg, View(), OfSlot(i, IdleCancelled));
      slots := slots[i := slots[i].(phase := Closing)];
    }

    method TakeFromBuffer(i: nat) returns (c: JobId)
      requires Ready(OfSlot(i, TakeBuffered))
      modifies `slots, `bufs, `jobs, `hist
      ensures Did(OfSlot(i, TakeBuffered))
      ensures old(bufs[i]) == [c] && bufs[i] == [] && slots[i].phase == Taken(c)
    {
      ReachStep(cfg, View(), OfSlot(i, TakeBuffered));
      BufferShallow(cfg, View(), i);
      c := bufs[i][0];
      bufs := bufs[i := bufs[i][1..]];
      slots := slots[i := slots[i].(phase := Taken(c))];
      jobs := jobs[c := jobs[c].(loc := InSlot(i))];
      hist := hist.(taken := Logged(hist.taken, i, c));
    }

    method BeginCall(i: nat)
      requires Ready(OfSlot(i, Begin))
      modifies `slots, `busy
      ensures Did(OfSlot(i, Begin))
      ensures i < |slots| && slots[i].worker == old(slots[i].worker)
      ensures var c := old(slots[i].phase).job;
              if slots[i].worker.Some? then slots[i].phase == Calling(c) && busy == old(busy) + 1
              else slots[i].phase == Spawning(ForJob(c)) && busy == old(busy)
    {
      ReachStep(cfg, View(), OfSlot(i, Begin));
      var Slot(phase, worker) := slots[i];
      if worker.None? {
        slots := slots[i := Slot(Spawning(ForJob(phase.job)), worker)];
      } else {
        busy := busy + 1;
        slots := slots[i := Slot(Calling(phase.job), worker)];
      }
    }

    /** `config` is what the request's settings are when it is marshalled. */
    method WriteRequest(i: nat, ok: bool, config: Settings)
      requires Ready(OfSlot(i, if ok then WriteOk(config) else WriteFails))
      modifies `slots
      ensures Did(OfSlot(i, if ok then WriteOk(config) else WriteFails))
      ensures i < |slots| && (ok ==> slots[i].phase.Reading? && slots[i].phase.job < |jobs|)
      ensures ok ==> WrittenBy(slots[i].worker) == Some(jobs[slots[i].phase.job].req.(config := config))
      ensures !ok ==> slots[i].phase == Done(old(slots[i].phase.job), Failed(WorkerFailed))
      ensures old(slots[i].worker).Some? && slots[i].worker.Some?
      ensures slots[i].worker.value.nextId == old(slots[i].worker).value.nextId + 1
    {
      ReachStep(cfg, View(), OfSlot(i, if ok then WriteOk(config) else WriteFails));
      CallerHasWorker(cfg, View(), i);
      var Slot(phase, worker) := slots[i];
      var c := phase.job;
      if ok {
        var w := worker.value;
        var id := w.nextId + 1;
        var line := In(id, jobs[c].req.(config := config));
        assert Written(w.(stdin := w.stdin + [line])) == Written(w) + [line];
        w := w.(nextId := id, stdin := w.stdin + [line], reader := Blocked);
        slots := slots[i := Slot(Reading(c), Some(w))];
      } else {
        slots := slots[i := Slot(Done(c, Failed(WorkerFailed)), UsedId(worker))];
      }
    }

    /** The select of readLine: a line or end of file from the reader, or the context. */
    method ReadResponse(i: nat, event: SlotAction)
      requires event.ReadGot? || event.ReadTimeout? || event.ReadCancelled?
      requires Ready(OfSlot(i, event))
      modifies `slots
      ensures Did(OfSlot(i, event))
      ensures i < |slots| && slots[i].phase.Done? && slots[i].phase.job < |jobs|
      ensures GoodOutcome(cfg, jobs[slots[i].phase.job].req, WrittenBy(slots[i].worker), slots[i].phase.out)
      ensures slots[i].phase.out.Ok? <==>
                && event.ReadGot? && old(slots[i].worker.value.reader.line).Some?
                && IsResultFor(old(slots[i].worker.value.reader.line).value, old(slots[i].worker.value.nextId))
      ensures slots[i].phase.out.Ok? ==>
                slots[i].phase.out == Ok(old(slots[i].worker.value.reader.line).value.result, i)
    {
      ReachStep(cfg, View(), OfSlot(i, event));
      DoneIsOwn(cfg, Apply(cfg, View(), OfSlot(i, event)), i);
      var Slot(phase, worker) := slots[i];
      var out := Failed(WorkerFailed);
      if event.ReadGot? {
        var w := worker.value;
        if w.reader.line.Some? { out := Accept(w.reader.line.value, w.nextId, i); }
        slots := slots[i := Slot(Done(phase.job, out), Some(w.(reader := NoReader)))];
      } else {
        slots := slots[i := Slot(Done(phase.job, out), worker)];
      }
    }

    method FinishCall(i: nat)
      requires Ready(OfSlot(i, EndCall))
      modifies `slots, `busy
      ensures Did(OfSlot(i, EndCall))
      ensures busy == old(busy) - 1 && i < |slots|
      ensures slots[i].worker == old(slots[i].worker)
      ensures var Done(c, out) := old(slots[i].phase);
              slots[i].phase == if out.Ok? then Reply(c, out) else Recycle(c, out)
    {
      ReachStep(cfg, View(), OfSlot(i, EndCall));
      var Done(c, out) := slots[i].phase;
      busy := busy - 1;
      slots := slots[i := slots[i].(phase := if out.Ok? then Reply(c, out) else Recycle(c, out))];
    }

    method KillAndRespawn(i: nat)
      requires Ready(OfSlot(i, KillWorker))
      modifies `slots, `waits
      ensures Did(OfSlot(i, KillWorker))
      ensures i < |slots| && slots[i].worker.None? && old(slots[i].worker).Some?
      ensures WaitedOn(old(slots[i].worker), old(waits), waits)
      ensures var Recycle(c, out) := old(slots[i].phase); slots[i].phase == Spawning(ForReply(c, out))
    {
      ReachStep(cfg, View(), OfSlot(i, KillWorker));
      WorkerLooksUnreaped(cfg, View(), i);
      var Recycle(c, out) := slots[i].phase;
      waits := Reap(waits, slots[i].worker);
      slots := slots[i := Slot(Spawning(ForReply(c, out)), None)];
    }

    /** The reply, which its capacity-1 channel always has room for. */
    method Answer(i: nat) returns (c: JobId, out: Outcome)
      requires Ready(OfSlot(i, SendReply))
      modifies `slots, `jobs
      ensures Did(OfSlot(i, SendReply))
      ensures c < |jobs| == |old(jobs)| && old(jobs)[c].resp == [] && jobs[c].resp == [out]
      ensures old(slots[i].phase) == Reply(c, out) && slots[i] == old(slots[i]).(phase := Idle)
      ensures GoodOutcome(cfg, jobs[c].req, jobs[c].written, out)
    {
      ReachStep(cfg, View(), OfSlot(i, SendReply));
      OwedIsOwn(cfg, View(), i);
      c, out := slots[i].phase.job, slots[i].phase.out;
      jobs := jobs[c := WithReply(jobs[c], out, slots[i].worker)];
      slots := slots[i := slots[i].(phase := Idle)];
    }

    method AnswerUnavailable(i: nat)
      requires Ready(OfSlot(i, SendUnavailable))
      modifies `slots, `jobs
      ensures Did(OfSlot(i, SendUnavailable))
      ensures i < |slots| && slots[i].phase.Closing? && shut != NotYet
      ensures var c := old(slots[i].phase.job); c < |jobs| && jobs[c].resp == [Failed(WorkerUnavailable)]
    {
      ReachStep(cfg, View(), OfSlot(i, SendUnavailable));
      GivingUpIsCancelled(cfg, View(), i);
      var c := slots[i].phase.job;
      jobs := jobs[c := WithReply(jobs[c], Failed(WorkerUnavailable), None)];
      slots := slots[i := slots[i].(phase := Closing)];
    }

    method ShutDownWorker(i: nat)
      requires Ready(OfSlot(i, CloseWorker))
      modifies `slots, `waits
      ensures Did(OfSlot(i, CloseWorker))
      ensures i < |slots| && slots[i] == Slot(Exited, None)
      ensures if old(slots[i].worker).Some? then WaitedOn(old(slots[i].worker), old(waits), waits)
              else waits == old(waits)
    {
      ReachStep(cfg, View(), OfSlot(i, CloseWorker));
      WorkerLooksUnreaped(cfg, View(), i);
      waits := Reap(waits, slots[i].worker);
      slots := slots[i := Slot(Exited, None)];
    }

    // ---------- The process at the other end ----------

    method ProcessMoves(i: nat, a: ProcessAction)
      requires Ready(OfProcess(i, a))
      modifies `slots, `hist
      ensures Did(OfProcess(i, a))
      ensures i < |slots| == |old(slots)| && slots == old(slots)[i := slots[i]]
      ensures slots[i].phase == old(slots)[i].phase
      ensures WrittenBy(slots[i].worker) == WrittenBy(old(slots)[i].worker)
    {
      ReachStep(cfg, View(), OfProcess(i, a));
      hist := NoteCold(hist, slots[i], a);
      slots := slots[i := slots[i].(worker := Some(ProcessApply(cfg, slots[i].worker.value, a)))];
    }

    // ---------- Shutdown ----------

    method CancelPool()
      requires Ready(OfShutdown(Cancel))
      modifies `shut, `hist
      ensures Did(OfShutdown(Cancel))
      ensures old(shut) == NotYet && shut == WaitSlots
    {
      ReachStep(cfg, View(), OfShutdown(Cancel));
      shut := WaitSlots;
      hist := hist.(jobsAtCancel := |jobs|);
    }

    method StopWaiting()
      requires Ready(OfShutdown(SlotsGone))
      modifies `shut
      ensures Did(OfShutdown(SlotsGone))
      ensures shut == Drain(0) && forall i :: 0 <= i < |slots| ==> slots[i].phase.Exited?
    {
      ReachStep(cfg, View(), OfShutdown(SlotsGone));
      shut := Drain(0);
    }

    method DrainReceive()
      requires Ready(OfShutdown(DrainTake))
      modifies `shut, `bufs, `jobs, `hist
      ensures Did(OfShutdown(DrainTake))
      ensures shut.DrainReply? && old(shut) == Drain(shut.at) && shut.at < |old(bufs)| == |bufs|
      ensures old(bufs)[shut.at] == [shut.job] + bufs[shut.at]
    {
      ReachStep(cfg, View(), OfShutdown(DrainTake));
      var k := shut.k;
      var c := bufs[k][0];
      bufs := bufs[k := bufs[k][1..]];
      jobs := jobs[c := jobs[c].(loc := InDrain)];
      hist := hist.(taken := Logged(hist.taken, k, c));
      shut := DrainReply(k, c);
    }

    method DrainAnswer()
      requires Ready(OfShutdown(DrainSend))
      modifies `shut, `jobs
      ensures Did(OfShutdown(DrainSend))
      ensures old(shut).job < |jobs| && jobs[old(shut).job].resp == [Failed(PoolShuttingDown)]
    {
      ReachStep(cfg, View(), OfShutdown(DrainSend));
      var DrainReply(k, c) := shut;
      jobs := jobs[c := WithReply(jobs[c], Failed(PoolShuttingDown), None)];
      shut := Drain(k);
    }

    method DrainAdvance()
      requires Ready(OfShutdown(DrainNext))
      modifies `shut
      ensures Did(OfShutdown(DrainNext))
      ensures old(shut).k < |bufs| && bufs[old(shut).k] == [] && DrainedPast(View(), old(shut).k)
    {
      ReachStep(cfg, View(), OfShutdown(DrainNext));
      if shut.k + 1 < |bufs| { shut := Drain(shut.k + 1); } else { shut := Finished; }
    }

    /** How many buffers there are, and how many calls had begun at the cancel. */
    function Fixed(): (nat, nat)
      reads this
    {
      (|bufs|, hist.jobsAtCancel)
    }

    /** A step of a caller that needs no slot at its select. */
    method CallerMoves(c: JobId, call: CallerAction)
      requires Ready(OfCaller(c, call)) && !call.Meet?
      modifies `jobs, `bufs, `hits, `spills, `hist
      ensures Did(OfCaller(c, call))
    {
      match call
      case Check => LookAtContext(c);
      case SendAffinity => var _ := TrySend(c);
      case AddHit => CountAffinityHit(c);
      case AddSpill => CountAffinitySpill(c);
      case Refused => StopOffering(c, true);
      case GiveUp => StopOffering(c, false);
      case Collect => var _ := ReceiveReply(c);
      case Abandon => AbandonWait(c);
      case ContextFires => CancelCaller(c);
    }

    /** What callers, old and new, do between two steps of the drain: each of these
        steps, if it can be taken when its turn comes. */
    method OthersMove(moves: seq<Action>)
      requires Valid()
      modifies `jobs, `bufs, `hits, `spills, `hist
      ensures View() == AfterMoves(cfg, old(View()), moves)
      ensures Valid() && shut == old(shut) && Fixed() == old(Fixed()) && AllKept(old(jobs), jobs)
    {
      for n := 0 to |moves|
        invariant View() == AfterMoves(cfg, old(View()), moves[..n])
        invariant Valid() && shut == old(shut) && Fixed() == old(Fixed()) && AllKept(old(jobs), jobs)
      {
        ghost var s := View();
        assert moves[..n + 1][..n] == moves[..n];
        if CanMove(cfg, View(), moves[n]) {
          match moves[n]
          case NewCall(req) => var _ := Submit(req);
          case OfCaller(c, call) => CallerMoves(c, call);
          CallersKeep(cfg, s, moves[n]);
        }
      }
      assert moves[..|moves|] == moves;
    }

    /** The callers' turn, if there is one. */
    method LetOthersMove(turns: seq<seq<Action>>) returns (rest: seq<seq<Action>>)
      requires Valid()
      modifies `jobs, `bufs, `hits, `spills, `hist
      ensures rest == if turns == [] then [] else turns[1..]
      ensures View() == if turns == [] then old(View()) else AfterMoves(cfg, old(View()), turns[0])
      ensures Valid() && shut == old(shut) && Fixed() == old(Fixed()) && AllKept(old(jobs), jobs)
    {
      rest := turns;
      if rest != [] {
        OthersMove(rest[0]);
        rest := rest[1..];
      }
    }

    /** The job received is told. */
    method DrainTell(k: nat, ghost was: seq<Job>, turns: seq<seq<Action>>) returns (rest: seq<seq<Action>>)
      requires Valid() && shut.DrainReply? && shut.at == k && AllKept(was, jobs)
      modifies `shut, `bufs, `jobs, `hits, `spills, `hist
      ensures Valid() && shut == Drain(k) && Fixed() == old(Fixed()) && AllKept(was, jobs)
      ensures rest == if turns == [] then [] else turns[1..]
      ensures turns == [] ==>
                ShutEnabled(old(View()), DrainSend) && View() == ShutApply(old(View()), DrainSend)
    {
      ghost var taken := jobs;
      DrainOwes(cfg, View());
      DrainKeeps(cfg, View(), DrainSend);
      DrainAnswer();
      AllKeptOn(was, taken, jobs);
      ghost var told := jobs;
      rest := LetOthersMove(turns);
      AllKeptOn(was, told, jobs);
    }

    /** One job received from buffer k and told. */
    method DrainOne(k: nat, turns: seq<seq<Action>>) returns (rest: seq<seq<Action>>)
      requires Valid() && shut == Drain(k) && k < |bufs| && bufs[k] != []
      modifies `shut, `bufs, `jobs, `hits, `spills, `hist
      ensures Valid() && shut == Drain(k) && Fixed() == old(Fixed()) && AllKept(old(jobs), jobs)
      ensures |rest| < |turns| || (turns == rest == [] && |bufs[k]| < |old(bufs[k])|)
      ensures turns == [] ==> bufs == old(bufs)[k := []] && ToldFrom(old(bufs[k]), old(jobs), jobs)
    {
      ghost var was := jobs;
      DrainedPair(cfg, View());
      DrainKeeps(cfg, View(), DrainTake);
      DrainReceive();
      ghost var taken := jobs;
      rest := LetOthersMove(turns);
      AllKeptOn(was, taken, jobs);
      rest := DrainTell(k, was, rest);
    }

    /** drainBuffered: answers whatever is in buffer k, also what callers send there
        meanwhile. */
    method DrainBuffered(k: nat, turns: seq<seq<Action>>) returns (rest: seq<seq<Action>>)
      requires Valid() && shut == Drain(k)
      modifies `shut, `bufs, `jobs, `hits, `spills, `hist
      ensures Valid() && shut == Drain(k) && Fixed() == old(Fixed()) && k < |bufs| && bufs[k] == []
      ensures AllKept(old(jobs), jobs) && forall c :: c in old(bufs[k]) ==> IsTold(c, jobs)
      ensures turns == [] ==>
                rest == [] && bufs == old(bufs)[k := []] && ToldFrom(old(bufs[k]), old(jobs), jobs)
    {
      ghost var before := View();
      DrainInRange(cfg, before);
      rest := LetOthersMove(turns);
      while bufs[k] != []
        invariant Valid() && shut == Drain(k) && Fixed() == old(Fixed()) && k < |bufs|
        invariant AllKept(old(jobs), jobs)
        invariant turns == [] ==>
                    && rest == [] && bufs == old(bufs)[k := bufs[k]]
                    && if bufs[k] != [] then bufs[k] == old(bufs[k]) && jobs == old(jobs)
                       else ToldFrom(old(bufs[k]), old(jobs), jobs)
        decreases |rest|, |bufs[k]|
      {
        ghost var was := jobs;
        rest := DrainOne(k, rest);
        AllKeptOn(old(jobs), was, jobs);
      }
      EmptiedIsTold(cfg, before, View(), k);
    }

    /** One round of Shutdown's loop. */
    method DrainAndAdvance(k: nat, ghost was: seq<Job>, turns: seq<seq<Action>>) returns (rest: seq<seq<Action>>)
      requires Valid() && shut == Drain(k) && AllKept(was, jobs)
      modifies `shut, `bufs, `jobs, `hits, `spills, `hist
      ensures Valid() && shut == if k + 1 < |bufs| then Drain(k + 1) else Finished
      ensures k < |bufs| && Fixed() == old(Fixed()) && AllKept(was, jobs)
      ensures forall c :: c in old(bufs[k]) ==> IsTold(c, jobs)
      ensures turns == [] && ToldBelow(k, was, old(jobs)) ==>
                rest == [] && bufs == old(bufs)[k := []] && ToldBelow(k + 1, was, jobs)
    {
      ghost var before := View();
      DrainInRange(cfg, before);
      rest := DrainBuffered(k, turns);
      AllKeptOn(was, before.jobs, jobs);
      if turns == [] && ToldBelow(k, was, before.jobs) { ToldOneMore(cfg, before, k, was, jobs); }
      DrainAdvance();
    }

    /** Shutdown's loop over the buffers. */
    method DrainLoop(turns: seq<seq<Action>>)
      requires Valid() && shut == Drain(0)
      modifies `shut, `bufs, `jobs, `hits, `spills, `hist
      ensures Valid() && shut == Finished && |bufs| == |old(bufs)| && Drained(old(jobs), jobs, bufs)
      ensures turns == [] ==>
                (forall k :: 0 <= k < |bufs| ==> bufs[k] == []) && ToldBelow(|bufs|, old(jobs), jobs)
    {
      ghost var before := View();
      DrainInRange(cfg, before);
      var k, rest := 0, turns;
      while k < |bufs|
        invariant Valid() && 0 <= k <= |bufs| && Fixed() == old(Fixed())
        invariant shut == if k < |bufs| then Drain(k) else Finished
        invariant AllKept(old(jobs), jobs)
        invariant turns == [] ==>
                    rest == [] && (forall m :: 0 <= m < k ==> bufs[m] == []) && ToldBelow(k, old(jobs), jobs)
      {
        rest := DrainAndAdvance(k, old(jobs), rest);
        k := k + 1;
      }
      DrainOutcome(cfg, before, View());
    }

    /** The rest of Shutdown once the slots are gone, callers taking any steps in any
        order in between. If they take none, every buffer is empty in the end and no job
        is touched but those that were buffered. */
    method DrainAll(turns: seq<seq<Action>>)
      requires Ready(OfShutdown(SlotsGone))
      modifies `shut, `bufs, `jobs, `hits, `spills, `hist
      ensures Valid() && shut == Finished && Drained(old(jobs), jobs, bufs)
      ensures turns == [] ==>
                && (forall k :: 0 <= k < |bufs| ==> bufs[k] == [])
                && |jobs| == |old(jobs)| && forall c :: 0 <= c < |jobs| ==>
                     jobs[c] == if old(jobs[c]).loc.Buffered? then ToldShuttingDown(old(jobs[c])) else old(jobs[c])
    {
      BuffersExist(cfg, View());
      StopWaiting();
      DrainLoop(turns);
    }
  }

  // ---------- What the methods say of phases ----------

  /** Where a slot goes on when spawn gives up: at the start to its select, with a job
      to refusing it, and with a reply owed to sending it. */
  predicate GivesUp(k: Then, phase: Phase) {
    match k
    case AtStart => phase == Idle
    case ForJob(c) => phase == Unavailable(c)
    case ForReply(c, out) => phase == Reply(c, out)
  }

  /** An ok line under this id. */
  predicate IsResultFor(line: Line, id: nat) { line.OkLine? && line.id == id }

  // ---------- What callers do meanwhile ----------

  /** A step a caller can take, there being no slot to meet. */
  predicate CanMove(cfg: Config, s: State, a: Action) {
    a.NewCall? || (a.OfCaller? && a.c < |s.jobs| && !a.call.Meet? && CallerEnabled(cfg, s, a.c, a.call))
  }

  ghost function AfterMoves(cfg: Config, s: State, moves: seq<Action>): State {
    if moves == [] then s
    else
      var before := AfterMoves(cfg, s, moves[..|moves| - 1]);
      var a := moves[|moves| - 1];
      if CanMove(cfg, before, a) then Apply(cfg, before, a) else before
  }

  // ---------- What the drain does to jobs ----------

  function ToldShuttingDown(job: Job): Job {
    WithReply(job, Failed(PoolShuttingDown), None)
  }

  /** The jobs of one buffer have been told, and no others. */
  ghost predicate ToldFrom(buf: seq<JobId>, was: seq<Job>, now: seq<Job>) {
    && |now| == |was|
    && forall c :: 0 <= c < |was| ==> now[c] == if buf == [c] then ToldShuttingDown(was[c]) else was[c]
  }

  /** The jobs buffered for slots below k have been told, and no others. */
  ghost predicate ToldBelow(k: nat, was: seq<Job>, now: seq<Job>) {
    && |now| == |was|
    && forall c :: 0 <= c < |was| ==>
         now[c] == if was[c].loc.Buffered? && was[c].loc.k < k then ToldShuttingDown(was[c]) else was[c]
  }

  predicate IsTold(c: JobId, jobs: seq<Job>) {
    c < |jobs| && jobs[c].answer == Some(Failed(PoolShuttingDown))
  }

  predicate IsLate(c: JobId, jobs: seq<Job>) { c < |jobs| && jobs[c].late }

  /** A job has its one reply: the one it had, or "shutting down". */
  predicate Settled(was: Job, now: Job) {
    now.sends == 1 && now.answer == if was.answer.Some? then was.answer else Some(Failed(PoolShuttingDown))
  }

  /** Every job accepted before has its one reply, no new call gets a job in, of the
      jobs sent meanwhile those have a reply that are not late, and only a late one can
      be left in a buffer. */
  predicate Drained(was: seq<Job>, now: seq<Job>, bufs: seq<seq<JobId>>) {
    && |was| <= |now|
    && (forall c :: 0 <= c < |was| && !was[c].loc.Unsent? ==> Settled(was[c], now[c]))
    && (forall c :: |was| <= c < |now| ==> now[c].loc.Unsent?)
    && (forall c :: 0 <= c < |now| && Accepted(now[c]) ==> (now[c].sends == 1 <==> !now[c].late))
    && (forall k :: 0 <= k < |bufs| && bufs[k] != [] ==> |bufs[k]| == 1 && IsLate(bufs[k][0], now))
  }

  /** An answer stays; a job in a buffer or in the drain stays there, goes on from the
      one to the other, or is told, unless it is late. */
  predicate Kept(was: Job, now: Job) {
    && (was.loc.Unsent? || !now.loc.Unsent?)
    && (was.loc.Answered? ==> now.loc.Answered? && now.answer == was.answer)
    && (!was.loc.Unsent? ==> now.late == was.late)
    && (was.loc.Buffered? || was.loc.InDrain? ==>
          now.loc == was.loc || now.loc.InDrain?
          || (now.loc.Answered? && now.answer == Some(Failed(PoolShuttingDown))))
  }

  predicate AllKept(was: seq<Job>, now: seq<Job>) {
    |was| <= |now| && forall c :: 0 <= c < |was| ==> Kept(was[c], now[c])
  }

  lemma AllKeptOn(was: seq<Job>, mid: seq<Job>, now: seq<Job>)
    requires AllKept(was, mid) && AllKept(mid, now)
    ensures AllKept(was, now)
  {
    forall c | 0 <= c < |was| ensures Kept(was[c], now[c]) { assert Kept(was[c], mid[c]) && Kept(mid[c], now[c]); }
  }

  // ---------- What the methods look up in the invariant ----------

  /** The process of this worker has been waited on once, and no other process. */
  predicate WaitedOn(worker: Option<Worker>, was: seq<nat>, now: seq<nat>) {
    && worker.Some? && worker.value.pid < |was|
    && was[worker.value.pid] == 0 && now == was[worker.value.pid := 1]
  }

  lemma CallerHasWorker(cfg: Config, s: State, i: nat)
    requires WfConfig(cfg) && Reachable(cfg, s) && i < |s.slots| && s.slots[i].phase.Calling?
    ensures s.slots[i].worker.Some?
  {
    ReachableFull(cfg, s);
    assert SlotSane(cfg, Cancelled(s), s.jobs, s.slots[i]);
  }

  lemma JobLooksSane(cfg: Config, s: State, c: JobId)
    requires WfConfig(cfg) && Reachable(cfg, s) && c < |s.jobs|
    ensures JobSane(cfg, s.jobs[c])
  {
    ReachableFull(cfg, s);
  }

  lemma WorkerLooksUnreaped(cfg: Config, s: State, i: nat)
    requires WfConfig(cfg) && Reachable(cfg, s) && i < |s.slots|
    ensures s.slots[i].phase.ReapFailed? || s.slots[i].phase.Recycle? ==> s.slots[i].worker.Some?
    ensures s.slots[i].worker.Some? ==> WaitedOn(s.slots[i].worker, s.waits, Reap(s.waits, s.slots[i].worker))
  {
    ReachableFull(cfg, s);
    assert WorkerOwned(s, i) && SlotSane(cfg, Cancelled(s), s.jobs, s.slots[i]);
  }

  lemma DoneIsOwn(cfg: Config, s: State, i: nat)
    requires WfConfig(cfg) && Reachable(cfg, s) && i < |s.slots| && s.slots[i].phase.Done?
    ensures var Done(c, out) := s.slots[i].phase;
            c < |s.jobs| && GoodOutcome(cfg, s.jobs[c].req, WrittenBy(s.slots[i].worker), out)
  {
    ReachableFull(cfg, s);
    assert SlotPlaced(s, i) && SlotSane(cfg, Cancelled(s), s.jobs, s.slots[i]);
  }

  lemma GivingUpIsCancelled(cfg: Config, s: State, i: nat)
    requires WfConfig(cfg) && Reachable(cfg, s) && i < |s.slots| && s.slots[i].phase.Unavailable?
    ensures Cancelled(s)
  {
    ReachableFull(cfg, s);
    assert SlotSane(cfg, Cancelled(s), s.jobs, s.slots[i]);
  }

  lemma ReplyIsOwn(cfg: Config, s: State, c: JobId)
    requires WfConfig(cfg) && Reachable(cfg, s) && c < |s.jobs| && s.jobs[c].resp != []
    ensures |s.jobs[c].resp| == 1 && GoodOutcome(cfg, s.jobs[c].req, s.jobs[c].written, s.jobs[c].resp[0])
  {
    ReachableFull(cfg, s);
    assert JobSane(cfg, s.jobs[c]);
  }

  lemma OwedIsOwn(cfg: Config, s: State, i: nat)
    requires WfConfig(cfg) && Reachable(cfg, s) && i < |s.slots| && s.slots[i].phase.Reply?
    ensures var Reply(c, out) := s.slots[i].phase;
            c < |s.jobs| && s.jobs[c].resp == [] && GoodOutcome(cfg, s.jobs[c].req, WrittenBy(s.slots[i].worker), out)
  {
    ReachableFull(cfg, s);
    assert SlotPlaced(s, i) && JobSane(cfg, s.jobs[s.slots[i].phase.job]);
    assert SlotSane(cfg, Cancelled(s), s.jobs, s.slots[i]);
  }

  lemma BufferShallow(cfg: Config, s: State, k: nat)
    requires WfConfig(cfg) && Reachable(cfg, s) && k < |s.bufs|
    ensures |s.bufs[k]| <= 1
  {
    ReachableFull(cfg, s);
  }

  lemma DrainInRange(cfg: Config, s: State)
    requires WfConfig(cfg) && Reachable(cfg, s)
    ensures |s.bufs| == cfg.size
    ensures s.shut.Drain? ==> s.shut.k < cfg.size
  {
    ReachableFull(cfg, s);
  }

  /** One receive and one reply of the drain empty a buffer. */
  lemma DrainedPair(cfg: Config, s: State)
    requires WfConfig(cfg) && Reachable(cfg, s)
    requires s.shut.Drain? && s.shut.k < |s.bufs| && s.bufs[s.shut.k] != []
    ensures Enabled(cfg, s, OfShutdown(DrainTake))
    ensures var t := Apply(cfg, s, OfShutdown(DrainTake));
            && Enabled(cfg, t, OfShutdown(DrainSend))
            && var u := Apply(cfg, t, OfShutdown(DrainSend));
            && u.shut == s.shut && u.bufs == s.bufs[s.shut.k := []]
            && ToldFrom(s.bufs[s.shut.k], s.jobs, u.jobs)
  {
    var k := s.shut.k;
    ReachableFull(cfg, s);
    assert BufferPlaced(s, k);
    assert s.bufs[k] == [s.bufs[k][0]] && s.bufs[k][1..] == [];
    assert JobSane(cfg, s.jobs[s.bufs[k][0]]);
  }

  lemma CallersKeep(cfg: Config, s: State, a: Action)
    requires WfConfig(cfg) && Reachable(cfg, s) && CanMove(cfg, s, a)
    ensures var t := Apply(cfg, s, a);
            && t.shut == s.shut && |t.bufs| == |s.bufs| && t.hist.jobsAtCancel == s.hist.jobsAtCancel
            && AllKept(s.jobs, t.jobs)
  {
    if a.OfCaller? {
      JobLooksSane(cfg, s, a.c);
      if a.call.SendAffinity? { SenderKept(cfg, s, a.c); } else { CallerKept(cfg, s, a.c, a.call); }
    }
  }

  lemma SenderKept(cfg: Config, s: State, c: JobId)
    requires c < |s.jobs| && CallerEnabled(cfg, s, c, SendAffinity) && JobSane(cfg, s.jobs[c])
    ensures var t := CallerApply(cfg, s, c, SendAffinity);
            && |t.jobs| == |s.jobs| && t.jobs == s.jobs[c := t.jobs[c]] && Kept(s.jobs[c], t.jobs[c])
  {
  }

  lemma CallerKept(cfg: Config, s: State, c: JobId, a: CallerAction)
    requires c < |s.jobs| && CallerEnabled(cfg, s, c, a) && !a.SendAffinity? && !a.Meet?
    ensures var t := CallerApply(cfg, s, c, a);
            && |t.jobs| == |s.jobs| && t.jobs == s.jobs[c := t.jobs[c]] && Kept(s.jobs[c], t.jobs[c])
  {
  }

  lemma DrainKeeps(cfg: Config, s: State, a: ShutAction)
    requires WfConfig(cfg) && Reachable(cfg, s) && ShutEnabled(s, a) && (a.DrainTake? || a.DrainSend?)
    ensures var t := ShutApply(s, a); |t.bufs| == |s.bufs| && AllKept(s.jobs, t.jobs)
  {
    ReachableFull(cfg, s);
    if a.DrainTake? { assert BufferPlaced(s, s.shut.k); }
  }

  lemma DrainOwes(cfg: Config, s: State)
    requires WfConfig(cfg) && Reachable(cfg, s) && s.shut.DrainReply?
    ensures Enabled(cfg, s, OfShutdown(DrainSend))
  {
    ReachableFull(cfg, s);
    DrainNeverStuck(cfg, s);
  }

  /** Where the drain leads, if only callers interfere. */
  lemma DrainOutcome(cfg: Config, s: State, t: State)
    requires WfConfig(cfg) && Reachable(cfg, s) && s.shut == Drain(0)
    requires Reachable(cfg, t) && t.shut.Finished? && AllKept(s.jobs, t.jobs)
    requires t.hist.jobsAtCancel == s.hist.jobsAtCancel
    ensures Drained(s.jobs, t.jobs, t.bufs)
  {
    forall c | 0 <= c < |s.jobs| && !s.jobs[c].loc.Unsent? ensures Settled(s.jobs[c], t.jobs[c]) {
      DrainSettles(cfg, s, t, c);
    }
    forall c | |s.jobs| <= c < |t.jobs| ensures t.jobs[c].loc.Unsent? {
      CallsBefore(cfg, s);
      LateCallersRefused(cfg, t, c);
    }
    forall c | 0 <= c < |t.jobs| && Accepted(t.jobs[c]) ensures t.jobs[c].sends == 1 <==> !t.jobs[c].late {
      ShutdownAnswers(cfg, t, c);
    }
    forall k | 0 <= k < |t.bufs| && t.bufs[k] != [] ensures |t.bufs[k]| == 1 && IsLate(t.bufs[k][0], t.jobs) {
      LeftIsLate(cfg, t, k);
    }
  }

  lemma DrainSettles(cfg: Config, s: State, t: State, c: JobId)
    requires WfConfig(cfg) && Reachable(cfg, s) && s.shut == Drain(0)
    requires Reachable(cfg, t) && t.shut.Finished?
    requires c < |s.jobs| && c < |t.jobs| && !s.jobs[c].loc.Unsent? && Kept(s.jobs[c], t.jobs[c])
    ensures Settled(s.jobs[c], t.jobs[c])
  {
    AcceptedBefore(cfg, s, c);
    ShutdownAnswers(cfg, t, c);
    JobLooksSane(cfg, t, c);
  }

  /** A job of a buffer that the drain has emptied has been told. */
  lemma EmptiedIsTold(cfg: Config, s: State, t: State, k: nat)
    requires WfConfig(cfg) && Reachable(cfg, s) && Reachable(cfg, t) && AllKept(s.jobs, t.jobs)
    requires s.shut == t.shut == Drain(k) && k < |s.bufs| == |t.bufs| && t.bufs[k] == []
    ensures forall c :: c in s.bufs[k] ==> IsTold(c, t.jobs)
  {
    BufferShallow(cfg, s, k);
    forall c | c in s.bufs[k] ensures IsTold(c, t.jobs) {
      BufferedIsPlaced(cfg, s, k);
      assert Kept(s.jobs[c], t.jobs[c]);
      PlacedInDrain(cfg, t, c);
    }
  }

  lemma BufferedIsPlaced(cfg: Config, s: State, k: nat)
    requires WfConfig(cfg) && Reachable(cfg, s) && k < |s.bufs| && s.bufs[k] != []
    ensures s.bufs[k][0] < |s.jobs| && s.jobs[s.bufs[k][0]].loc == Buffered(k)
  {
    ReachableFull(cfg, s);
    assert BufferPlaced(s, k);
  }

  lemma PlacedInDrain(cfg: Config, s: State, c: JobId)
    requires WfConfig(cfg) && Reachable(cfg, s) && s.shut.Drain? && c < |s.jobs|
    ensures !s.jobs[c].loc.InDrain?
    ensures s.jobs[c].loc.Buffered? ==> s.jobs[c].loc.k < |s.bufs| && s.bufs[s.jobs[c].loc.k] == [c]
  {
    ReachableFull(cfg, s);
    assert JobPlaced(s, c);
  }

  /** When the drain begins an accepted job is answered, or buffered in time. */
  lemma AcceptedBefore(cfg: Config, s: State, c: JobId)
    requires WfConfig(cfg) && Reachable(cfg, s) && s.shut == Drain(0)
    requires c < |s.jobs| && !s.jobs[c].loc.Unsent?
    ensures !s.jobs[c].late && if s.jobs[c].loc.Answered? then s.jobs[c].answer.Some?
                               else s.jobs[c].loc.Buffered? && s.jobs[c].answer.None?
  {
    ReachableFull(cfg, s);
    assert JobSane(cfg, s.jobs[c]) && JobPlaced(s, c) && JobLateness(s, c);
  }

  lemma CallsBefore(cfg: Config, s: State)
    requires WfConfig(cfg) && Reachable(cfg, s) && Cancelled(s)
    ensures s.hist.jobsAtCancel <= |s.jobs|
  {
    ReachableFull(cfg, s);
  }

  lemma LeftIsLate(cfg: Config, s: State, k: nat)
    requires WfConfig(cfg) && Reachable(cfg, s) && s.shut.Finished? && k < |s.bufs| && s.bufs[k] != []
    ensures |s.bufs[k]| == 1 && IsLate(s.bufs[k][0], s.jobs)
  {
    ReachableFull(cfg, s);
    assert BufferPlaced(s, k) && JobLateness(s, s.bufs[k][0]);
  }

  lemma BuffersExist(cfg: Config, s: State)
    requires WfConfig(cfg) && Reachable(cfg, s)
    ensures forall c :: 0 <= c < |s.jobs| && s.jobs[c].loc.Buffered? ==> s.jobs[c].loc.k < |s.bufs|
  {
    ReachableFull(cfg, s);
    forall c | 0 <= c < |s.jobs| && s.jobs[c].loc.Buffered? ensures s.jobs[c].loc.k < |s.bufs| {
      assert JobPlaced(s, c);
    }
  }

  lemma ToldOneMore(cfg: Config, s: State, k: nat, was: seq<Job>, now: seq<Job>)
    requires WfConfig(cfg) && Reachable(cfg, s)
    requires k < |s.bufs| && ToldBelow(k, was, s.jobs) && ToldFrom(s.bufs[k], s.jobs, now)
    ensures ToldBelow(k + 1, was, now)
  {
    ReachableFull(cfg, s);
    forall c | 0 <= c < |was|
      ensures now[c] == if was[c].loc.Buffered? && was[c].loc.k < k + 1 then ToldShuttingDown(was[c]) else was[c]
    {
      assert JobPlaced(s, c) && BufferPlaced(s, k);
    }
  }
}
