/** What every step of the pool keeps: where each job is, what each caller can have
    seen, and what is in each worker's pipes. */
module PoolInvariant {
  import opened PoolMachine
  import opened Protocol
  import opened SettingsValues
  import opened Wrappers

  // ---------- Where jobs are ----------

  ghost predicate Shape(cfg: Config, s: State) {
    && |s.slots| == cfg.size
    && |s.bufs| == cfg.size
    && (forall k :: 0 <= k < |s.bufs| ==> |s.bufs[k]| <= 1)
    && (s.shut.Drain? ==> s.shut.k < cfg.size)
    && (s.shut.DrainReply? ==> s.shut.at < cfg.size)
  }

  ghost predicate BufferPlaced(s: State, k: nat)
    requires k < |s.bufs|
  {
    s.bufs[k] != [] ==> s.bufs[k][0] < |s.jobs| && s.jobs[s.bufs[k][0]].loc == Buffered(k)
  }

  ghost predicate SlotPlaced(s: State, i: nat)
    requires i < |s.slots|
  {
    var held := Holds(s.slots[i].phase);
    held.Some? ==> held.value < |s.jobs| && s.jobs[held.value].loc == InSlot(i)
  }

  ghost predicate JobPlaced(s: State, c: JobId)
    requires c < |s.jobs|
  {
    match s.jobs[c].loc
    case Unsent => true
    case Buffered(k) => k < |s.bufs| && s.bufs[k] == [c]
    case InSlot(i) => i < |s.slots| && Holds(s.slots[i].phase) == Some(c)
    case InDrain => s.shut.DrainReply? && s.shut.job == c
    case Answered => true
  }

  /** Every accepted, unanswered job is in exactly one place. */
  ghost predicate Placed(s: State) {
    && (forall k :: 0 <= k < |s.bufs| ==> BufferPlaced(s, k))
    && (forall i :: 0 <= i < |s.slots| ==> SlotPlaced(s, i))
    && (s.shut.DrainReply? ==> s.shut.job < |s.jobs| && s.jobs[s.shut.job].loc == InDrain)
    && (forall c :: 0 <= c < |s.jobs| ==> JobPlaced(s, c))
  }

  /** Nothing moves: buffers, holders and the drain are as before, and so are the
      places of the jobs. */
  lemma KeptPlaced(cfg: Config, s: State, t: State)
    requires Shape(cfg, s) && Placed(s)
    requires t.bufs == s.bufs && t.shut == s.shut && |t.slots| == |s.slots| && |s.jobs| <= |t.jobs|
    requires forall i :: 0 <= i < |s.slots| ==> Holds(t.slots[i].phase) == Holds(s.slots[i].phase)
    requires forall c :: 0 <= c < |s.jobs| ==> t.jobs[c].loc == s.jobs[c].loc
    requires forall c :: |s.jobs| <= c < |t.jobs| ==> t.jobs[c].loc.Unsent?
    ensures Shape(cfg, t) && Placed(t)
  {
    forall c | 0 <= c < |t.jobs| ensures JobPlaced(t, c) { if c < |s.jobs| { assert JobPlaced(s, c); } }
    forall k | 0 <= k < |t.slots| ensures SlotPlaced(t, k) {
      assert SlotPlaced(s, k) && Holds(t.slots[k].phase) == Holds(s.slots[k].phase);
    }
    forall k | 0 <= k < |t.bufs| ensures BufferPlaced(t, k) { assert BufferPlaced(s, k); }
  }

  predicate MovesJob(a: SlotAction) {
    a.TakeBuffered? || a.SendReply? || a.SendUnavailable?
  }

  /** All other slot steps keep the job they hold and touch no buffer and no job. */
  lemma SlotStepLocal(cfg: Config, s: State, i: nat, a: SlotAction)
    requires i < |s.slots| && SlotEnabled(s, i, a) && !MovesJob(a)
    ensures var t := SlotApply(cfg, s, i, a);
            && t.jobs == s.jobs && t.bufs == s.bufs && t.shut == s.shut
            && t.slots == s.slots[i := t.slots[i]]
            && Holds(t.slots[i].phase) == Holds(s.slots[i].phase)
  {
  }

  lemma SlotStepPlaced(cfg: Config, s: State, i: nat, a: SlotAction)
    requires Shape(cfg, s) && Placed(s) && i < |s.slots| && SlotEnabled(s, i, a)
    ensures Shape(cfg, SlotApply(cfg, s, i, a)) && Placed(SlotApply(cfg, s, i, a))
  {
    if a.TakeBuffered? {
      TakeStepPlaced(cfg, s, i);
    } else if MovesJob(a) {
      ReplyStepPlaced(cfg, s, i, a);
    } else {
      SlotStepLocal(cfg, s, i, a);
      KeptPlaced(cfg, s, SlotApply(cfg, s, i, a));
    }
  }

  lemma TakeStepPlaced(cfg: Config, s: State, i: nat)
    requires Shape(cfg, s) && Placed(s) && i < |s.slots| && SlotEnabled(s, i, TakeBuffered)
    ensures Shape(cfg, SlotApply(cfg, s, i, TakeBuffered)) && Placed(SlotApply(cfg, s, i, TakeBuffered))
  {
    var t := SlotApply(cfg, s, i, TakeBuffered);
    assert SlotPlaced(s, i) && BufferPlaced(s, i);
    forall c | 0 <= c < |t.jobs| ensures JobPlaced(t, c) { assert JobPlaced(s, c); }
    forall k | 0 <= k < |t.slots| ensures SlotPlaced(t, k) { assert SlotPlaced(s, k); }
    forall k | 0 <= k < |t.bufs| ensures BufferPlaced(t, k) { assert BufferPlaced(s, k); }
  }

  lemma ReplyStepPlaced(cfg: Config, s: State, i: nat, a: SlotAction)
    requires Shape(cfg, s) && Placed(s) && i < |s.slots| && SlotEnabled(s, i, a)
    requires a.SendReply? || a.SendUnavailable?
    ensures Shape(cfg, SlotApply(cfg, s, i, a)) && Placed(SlotApply(cfg, s, i, a))
  {
    var t := SlotApply(cfg, s, i, a);
    assert SlotPlaced(s, i) && BufferPlaced(s, i);
    forall c | 0 <= c < |t.jobs| ensures JobPlaced(t, c) { assert JobPlaced(s, c); }
    forall k | 0 <= k < |t.slots| ensures SlotPlaced(t, k) { assert SlotPlaced(s, k); }
    forall k | 0 <= k < |t.bufs| ensures BufferPlaced(t, k) { assert BufferPlaced(s, k); }
  }

  lemma SendPlaced(cfg: Config, s: State, c: JobId)
    requires Shape(cfg, s) && Placed(s) && c < |s.jobs| && CallerEnabled(cfg, s, c, SendAffinity)
    requires s.jobs[c].loc.Unsent? && |s.bufs[cfg.route(s.jobs[c].req.key)]| < 1
    ensures Shape(cfg, CallerApply(cfg, s, c, SendAffinity)) && Placed(CallerApply(cfg, s, c, SendAffinity))
  {
    var t := CallerApply(cfg, s, c, SendAffinity);
    forall x | 0 <= x < |t.jobs| ensures JobPlaced(t, x) { assert JobPlaced(s, x); }
    forall k | 0 <= k < |t.slots| ensures SlotPlaced(t, k) { assert SlotPlaced(s, k); }
    forall k | 0 <= k < |t.bufs| ensures BufferPlaced(t, k) { assert BufferPlaced(s, k); }
  }

  lemma MeetPlaced(cfg: Config, s: State, c: JobId, i: nat)
    requires Shape(cfg, s) && Placed(s) && c < |s.jobs| && CallerEnabled(cfg, s, c, Meet(i))
    requires s.jobs[c].loc.Unsent?
    ensures Shape(cfg, CallerApply(cfg, s, c, Meet(i))) && Placed(CallerApply(cfg, s, c, Meet(i)))
  {
    var t := CallerApply(cfg, s, c, Meet(i));
    forall x | 0 <= x < |t.jobs| ensures JobPlaced(t, x) { assert JobPlaced(s, x); }
    forall k | 0 <= k < |t.slots| ensures SlotPlaced(t, k) { assert SlotPlaced(s, k); }
    forall k | 0 <= k < |t.bufs| ensures BufferPlaced(t, k) { assert BufferPlaced(s, k); }
  }

  /** All other caller steps change one job, and not its place. */
  lemma CallerStepLocal(cfg: Config, s: State, c: JobId, a: CallerAction)
    requires c < |s.jobs| && CallerEnabled(cfg, s, c, a) && !a.Meet?
    requires a.SendAffinity? ==> |s.bufs[cfg.route(s.jobs[c].req.key)]| >= 1
    ensures var t := CallerApply(cfg, s, c, a);
            && t.bufs == s.bufs && t.shut == s.shut && t.slots == s.slots && t.hist == s.hist
            && t.jobs == s.jobs[c := t.jobs[c]] && t.jobs[c].loc == s.jobs[c].loc
  {
  }

  lemma CallerStepPlaced(cfg: Config, s: State, c: JobId, a: CallerAction)
    requires Shape(cfg, s) && Placed(s) && c < |s.jobs| && CallerEnabled(cfg, s, c, a)
    requires JobSane(cfg, s.jobs[c])
    ensures Shape(cfg, CallerApply(cfg, s, c, a)) && Placed(CallerApply(cfg, s, c, a))
  {
    if a.Meet? {
      MeetPlaced(cfg, s, c, a.slot);
    } else if a.SendAffinity? && |s.bufs[cfg.route(s.jobs[c].req.key)]| < 1 {
      SendPlaced(cfg, s, c);
    } else {
      CallerStepLocal(cfg, s, c, a);
      KeptPlaced(cfg, s, CallerApply(cfg, s, c, a));
    }
  }

  lemma ShutStepPlaced(cfg: Config, s: State, a: ShutAction)
    requires WfConfig(cfg) && Shape(cfg, s) && Placed(s) && ShutEnabled(s, a)
    ensures Shape(cfg, ShutApply(s, a)) && Placed(ShutApply(s, a))
  {
    var t := ShutApply(s, a);
    if s.shut.Drain? { assert BufferPlaced(s, s.shut.k); }
    forall x | 0 <= x < |t.jobs| ensures JobPlaced(t, x) { assert JobPlaced(s, x); }
    forall k | 0 <= k < |t.slots| ensures SlotPlaced(t, k) { assert SlotPlaced(s, k); }
    forall k | 0 <= k < |t.bufs| ensures BufferPlaced(t, k) { assert BufferPlaced(s, k); }
  }

  // ---------- What a caller can have seen ----------

  /** The line written for a request: the same but for the settings, which are read
      again when it is marshalled. */
  predicate Carries(line: Request, req: Request) { line == req.(config := line.config) }

  /** A result is one for the request as it was written. */
  ghost predicate GoodOutcome(cfg: Config, req: Request, written: Option<Request>, out: Outcome) {
    out.Ok? ==> written.Some? && Carries(written.value, req) && cfg.good(written.value, out.result)
  }

  ghost predicate JobSane(cfg: Config, job: Job) {
    && (match job.loc
        case Unsent =>
          && (job.pc.Checking? || job.pc.TryAffinity? || job.pc.Offering?
              || job.pc == Returned(Failed(PoolShuttingDown)) || job.pc == Returned(Failed(CallerGone)))
          && job.resp == [] && job.sends == 0 && job.answer.None? && job.route.NoRoute? && !job.late
        case Answered =>
          && job.sends == 1 && job.answer.Some? && !job.route.NoRoute?
          && (job.resp == [job.answer.value] || (job.resp == [] && job.pc == Returned(job.answer.value)))
          && (job.pc.CountHit? || job.pc.CountSpill? || job.pc.Waiting?
              || job.pc == Returned(job.answer.value) || job.pc == Returned(Failed(CallerGone)))
        case _ =>
          && job.resp == [] && job.sends == 0 && job.answer.None? && !job.route.NoRoute?
          && (job.pc.CountHit? || job.pc.CountSpill? || job.pc.Waiting? || job.pc == Returned(Failed(CallerGone))))
    && (job.pc.TryAffinity? ==> cfg.affinityEnabled && job.req.key != "")
    && (job.pc.CountHit? ==> job.route.ByAffinity?)
    && (job.pc.CountSpill? ==> job.route.BySpill?)
    && (job.route.ByAffinity? || job.route.BySpill? ==> cfg.affinityEnabled && job.req.key != "")
    && (job.route.ByShared? ==> !cfg.affinityEnabled || job.req.key == "")
    && (job.late ==> job.route.ByAffinity?)
    && (job.answer.Some? ==> GoodOutcome(cfg, job.req, job.written, job.answer.value))
  }

  ghost predicate JobsSane(cfg: Config, s: State) {
    forall c :: 0 <= c < |s.jobs| ==> JobSane(cfg, s.jobs[c])
  }

  lemma CallerStepJobs(cfg: Config, s: State, c: JobId, a: CallerAction)
    requires JobsSane(cfg, s) && c < |s.jobs| && CallerEnabled(cfg, s, c, a)
    ensures JobsSane(cfg, CallerApply(cfg, s, c, a))
  {
    assert JobSane(cfg, s.jobs[c]);
  }

  lemma SlotStepJobs(cfg: Config, s: State, i: nat, a: SlotAction)
    requires Shape(cfg, s) && Placed(s) && JobsSane(cfg, s) && i < |s.slots| && SlotEnabled(s, i, a)
    requires SlotSane(cfg, Cancelled(s), s.jobs, s.slots[i])
    ensures JobsSane(cfg, SlotApply(cfg, s, i, a))
  {
    var t := SlotApply(cfg, s, i, a);
    assert SlotPlaced(s, i) && BufferPlaced(s, i);
    forall c | 0 <= c < |t.jobs| ensures JobSane(cfg, t.jobs[c]) { assert JobSane(cfg, s.jobs[c]); }
  }

  lemma ShutStepJobs(cfg: Config, s: State, a: ShutAction)
    requires Shape(cfg, s) && Placed(s) && JobsSane(cfg, s) && ShutEnabled(s, a)
    ensures JobsSane(cfg, ShutApply(s, a))
  {
    var t := ShutApply(s, a);
    if s.shut.Drain? { assert BufferPlaced(s, s.shut.k); }
    forall c | 0 <= c < |t.jobs| ensures JobSane(cfg, t.jobs[c]) { assert JobSane(cfg, s.jobs[c]); }
  }

  // ---------- What is in a worker's pipes ----------

  /** A line that names the request that reads it is a result for that request. */
  ghost predicate Owned(cfg: Config, seen: seq<In>, reader: nat, line: Line) {
    line.OkLine? && line.id == reader ==> Answers(cfg, seen, line)
  }

  ghost predicate LinesOwned(cfg: Config, w: Worker) {
    && (forall n :: 0 <= n < |w.stdout| ==> Owned(cfg, w.seen, NextRead(w) + n, w.stdout[n]))
    && (w.reader.Got? && w.reader.line.Some? ==> Owned(cfg, w.seen, w.nextId, w.reader.line.value))
  }

  /** Holds of every incarnation, even one about to be killed: request ids are
      1, 2, 3, ... and, until one is used without a request being written, no line on
      its way out will be taken for a result it is not. */
  ghost predicate WorkerSane(cfg: Config, w: Worker) {
    && (forall k :: 0 <= k < |Written(w)| ==> Written(w)[k].id == k + 1)
    && (|Written(w)| == w.nextId ==> LinesOwned(cfg, w))
    && (w.current.Some? ==> w.seen != [] && w.seen[|w.seen| - 1] == w.current.value)
  }

  /** Nothing in flight on this incarnation. */
  ghost predicate Quiet(cfg: Config, w: Worker) {
    && |Written(w)| == w.nextId
    && w.reader.NoReader?
    && (cfg.strict ==> w.stdin == [] && w.current.None? && w.stdout == [])
  }

  /** Lines and requests between the write and the read of one call. */
  function InFlight(w: Worker): nat {
    |w.stdin| + (if w.current.Some? then 1 else 0) + |w.stdout|
    + (if w.reader.Got? && w.reader.line.Some? then 1 else 0)
  }

  /** The one request outstanding is `req`. */
  ghost predicate Serving(cfg: Config, w: Worker, req: Request) {
    && |Written(w)| == w.nextId > 0
    && Carries(Written(w)[w.nextId - 1].req, req)
    && !w.reader.NoReader?
    && (cfg.strict ==> InFlight(w) == 1)
  }

  ghost predicate JobIs(cfg: Config, jobs: seq<Job>, c: JobId, worker: Option<Worker>, out: Outcome) {
    c < |jobs| && GoodOutcome(cfg, jobs[c].req, WrittenBy(worker), out)
  }

  ghost predicate ThenSane(cfg: Config, jobs: seq<Job>, k: Then) {
    k.ForReply? ==> k.out.Failed?
  }

  ghost predicate SlotSane(cfg: Config, cancelled: bool, jobs: seq<Job>, slot: Slot) {
    && (slot.worker.Some? ==> WorkerSane(cfg, slot.worker.value))
    && match slot.phase
       case Spawning(k) => slot.worker.None? && ThenSane(cfg, jobs, k) && (k.ForJob? ==> cancelled)
       case Starting(k) => slot.worker.None? && ThenSane(cfg, jobs, k) && !k.ForJob?
       case AwaitReady(k) =>
         slot.worker.Some? && Quiet(cfg, slot.worker.value) && slot.worker.value.nextId == 0
         && ThenSane(cfg, jobs, k) && !k.ForJob?
       case ReapFailed(k) => slot.worker.Some? && ThenSane(cfg, jobs, k) && !k.ForJob?
       case Backoff(k) => slot.worker.None? && ThenSane(cfg, jobs, k) && !k.ForJob?
       case Idle => if slot.worker.Some? then Quiet(cfg, slot.worker.value) else cancelled
       case Taken(_) => if slot.worker.Some? then Quiet(cfg, slot.worker.value) else cancelled
       case Unavailable(_) => slot.worker.None? && cancelled
       case Calling(_) => slot.worker.Some? && Quiet(cfg, slot.worker.value)
       case Reading(c) => slot.worker.Some? && c < |jobs| && Serving(cfg, slot.worker.value, jobs[c].req)
       case Done(c, out) =>
         slot.worker.Some? && (out.Ok? ==> JobIs(cfg, jobs, c, slot.worker, out) && Quiet(cfg, slot.worker.value))
       case Recycle(_, out) => slot.worker.Some? && out.Failed?
       case Reply(c, out) =>
         JobIs(cfg, jobs, c, slot.worker, out) &&
         if slot.worker.Some? then Quiet(cfg, slot.worker.value) else cancelled && out.Failed?
       case Closing => cancelled
       case Exited => slot.worker.None? && cancelled
  }

  ghost predicate SlotsSane(cfg: Config, s: State) {
    forall i :: 0 <= i < |s.slots| ==> SlotSane(cfg, Cancelled(s), s.jobs, s.slots[i])
  }

  /** A process step keeps whatever its slot relies on. */
  lemma ProcessKeepsWorker(cfg: Config, w: Worker, a: ProcessAction)
    requires WorkerSane(cfg, w) && ProcessEnabled(cfg, w, a)
    ensures WorkerSane(cfg, ProcessApply(cfg, w, a))
    ensures Written(ProcessApply(cfg, w, a)) == Written(w)
    ensures Quiet(cfg, w) ==> Quiet(cfg, ProcessApply(cfg, w, a))
    ensures forall req :: Serving(cfg, w, req) ==> Serving(cfg, ProcessApply(cfg, w, a), req)
  {
    ProcessKeepsWritten(cfg, w, a);
    if |Written(w)| == w.nextId { ProcessKeepsOwned(cfg, w, a); }
  }

  lemma ProcessKeepsWritten(cfg: Config, w: Worker, a: ProcessAction)
    requires ProcessEnabled(cfg, w, a)
    ensures Written(ProcessApply(cfg, w, a)) == Written(w) && w.seen <= ProcessApply(cfg, w, a).seen
  {
  }

  lemma OwnedStill(cfg: Config, seen: seq<In>, more: seq<In>, reader: nat, line: Line)
    requires seen <= more && Owned(cfg, seen, reader, line)
    ensures Owned(cfg, more, reader, line)
  {
  }

  /** Lines already on their way keep their readers; a new one is honest. */
  lemma ProcessKeepsOwned(cfg: Config, w: Worker, a: ProcessAction)
    requires WorkerSane(cfg, w) && ProcessEnabled(cfg, w, a) && LinesOwned(cfg, w)
    ensures LinesOwned(cfg, ProcessApply(cfg, w, a))
  {
    var v := ProcessApply(cfg, w, a);
    ProcessKeepsWritten(cfg, w, a);
    forall n | 0 <= n < |v.stdout| ensures Owned(cfg, v.seen, NextRead(v) + n, v.stdout[n]) {
      if a.ReaderGetsLine? { assert v.stdout[n] == w.stdout[n + 1]; }
      else if n < |w.stdout| { OwnedStill(cfg, w.seen, v.seen, NextRead(w) + n, w.stdout[n]); }
    }
  }

  lemma ProcessStepSlots(cfg: Config, s: State, i: nat, a: ProcessAction)
    requires SlotsSane(cfg, s) && i < |s.slots| && s.slots[i].worker.Some?
    requires ProcessEnabled(cfg, s.slots[i].worker.value, a)
    ensures SlotsSane(cfg, ProcessStep(cfg, s, i, a))
  {
    assert SlotSane(cfg, Cancelled(s), s.jobs, s.slots[i]);
    ProcessKeepsWorker(cfg, s.slots[i].worker.value, a);
  }

  /** The line the reader got carries the id of the outstanding request only if it
      answers that very request. */
  lemma AcceptedIsOwn(cfg: Config, w: Worker, req: Request, slot: nat)
    requires WorkerSane(cfg, w) && Serving(cfg, w, req)
    requires w.reader.Got? && w.reader.line.Some?
    ensures GoodOutcome(cfg, req, LastWritten(w), Accept(w.reader.line.value, w.nextId, slot))
  {
    var line := w.reader.line.value;
    if Accept(line, w.nextId, slot).Ok? {
      var k :| 0 <= k < |w.seen| && w.seen[k].id == line.id && cfg.good(w.seen[k].req, line.result);
      assert Written(w)[k] == w.seen[k];
      assert k + 1 == w.nextId;
    }
  }

  predicate SpawnStep(a: SlotAction) {
    a.SpawnCheck? || a.StartOk? || a.StartFails? || a.ReadyOk? || a.ReadyFails?
    || a.ReapFailedStart? || a.BackoffTimer? || a.BackoffCancelled?
  }

  lemma SpawnStepOwnSlot(cfg: Config, s: State, i: nat, a: SlotAction)
    requires i < |s.slots| && SlotEnabled(s, i, a) && SpawnStep(a)
    requires Placed(s) && SlotSane(cfg, Cancelled(s), s.jobs, s.slots[i])
    ensures var t := SlotApply(cfg, s, i, a); SlotSane(cfg, Cancelled(t), t.jobs, t.slots[i])
  {
    assert SlotPlaced(s, i);
  }

  lemma ReadStepOwnSlot(cfg: Config, s: State, i: nat)
    requires i < |s.slots| && SlotEnabled(s, i, ReadGot)
    requires SlotSane(cfg, Cancelled(s), s.jobs, s.slots[i])
    ensures var t := SlotApply(cfg, s, i, ReadGot); SlotSane(cfg, Cancelled(t), t.jobs, t.slots[i])
  {
    if s.slots[i].worker.value.reader.line.Some? {
      AcceptedIsOwn(cfg, s.slots[i].worker.value, s.jobs[s.slots[i].phase.job].req, i);
    }
  }

  lemma WriteStepOwnSlot(cfg: Config, s: State, i: nat, config: Settings)
    requires i < |s.slots| && SlotEnabled(s, i, WriteOk(config))
    requires SlotSane(cfg, Cancelled(s), s.jobs, s.slots[i])
    ensures var t := SlotApply(cfg, s, i, WriteOk(config)); SlotSane(cfg, Cancelled(t), t.jobs, t.slots[i])
  {
    var t := SlotApply(cfg, s, i, WriteOk(config));
    var w := s.slots[i].worker.value;
    var v := t.slots[i].worker.value;
    assert Written(v) == Written(w) + [In(v.nextId, s.jobs[s.slots[i].phase.job].req.(config := config))];
  }

  lemma MoveStepOwnSlot(cfg: Config, s: State, i: nat, a: SlotAction)
    requires i < |s.slots| && SlotEnabled(s, i, a) && MovesJob(a)
    requires SlotSane(cfg, Cancelled(s), s.jobs, s.slots[i])
    ensures var t := SlotApply(cfg, s, i, a); SlotSane(cfg, Cancelled(t), t.jobs, t.slots[i])
  {
  }

  lemma StepOwnSlot(cfg: Config, s: State, i: nat, a: SlotAction)
    requires i < |s.slots| && SlotEnabled(s, i, a)
    requires Placed(s) && SlotSane(cfg, Cancelled(s), s.jobs, s.slots[i])
    ensures var t := SlotApply(cfg, s, i, a); SlotSane(cfg, Cancelled(t), t.jobs, t.slots[i])
  {
    if a.ReadGot? { ReadStepOwnSlot(cfg, s, i); }
    else if a.WriteOk? { WriteStepOwnSlot(cfg, s, i, a.config); }
    else if SpawnStep(a) { SpawnStepOwnSlot(cfg, s, i, a); }
    else if MovesJob(a) { MoveStepOwnSlot(cfg, s, i, a); }
  }

  lemma SlotStepSlots(cfg: Config, s: State, i: nat, a: SlotAction)
    requires Placed(s) && SlotsSane(cfg, s) && i < |s.slots| && SlotEnabled(s, i, a)
    ensures SlotsSane(cfg, SlotApply(cfg, s, i, a))
  {
    var t := SlotApply(cfg, s, i, a);
    assert SlotSane(cfg, Cancelled(s), s.jobs, s.slots[i]);
    StepOwnSlot(cfg, s, i, a);
    SlotStepFrame(cfg, s, i, a);
  }

  lemma SlotStepFrame(cfg: Config, s: State, i: nat, a: SlotAction)
    requires i < |s.slots| && SlotEnabled(s, i, a)
    ensures var t := SlotApply(cfg, s, i, a);
            && t.shut == s.shut && |t.jobs| == |s.jobs| && |t.slots| == |s.slots|
            && (forall c :: 0 <= c < |s.jobs| ==> t.jobs[c].req == s.jobs[c].req)
            && t.slots == s.slots[i := t.slots[i]]
  {
    if MovesJob(a) {
      var t := SlotApply(cfg, s, i, a);
      var c := if a.TakeBuffered? then s.bufs[i][0] else s.slots[i].phase.job;
      assert t.jobs == s.jobs[c := t.jobs[c]];
    } else {
      SlotStepLocal(cfg, s, i, a);
    }
  }

  /** A slot relies on nothing about jobs but their requests. */
  lemma SlotKept(cfg: Config, cancelled: bool, jobs: seq<Job>, more: seq<Job>, slot: Slot)
    requires SlotSane(cfg, cancelled, jobs, slot)
    requires |jobs| <= |more| && forall c :: 0 <= c < |jobs| ==> more[c].req == jobs[c].req
    ensures SlotSane(cfg, cancelled, more, slot)
    ensures SlotSane(cfg, true, more, slot)
  {
  }

  lemma CallerStepSlots(cfg: Config, s: State, c: JobId, a: CallerAction)
    requires SlotsSane(cfg, s) && c < |s.jobs| && CallerEnabled(cfg, s, c, a)
    ensures SlotsSane(cfg, CallerApply(cfg, s, c, a))
  {
    var t := CallerApply(cfg, s, c, a);
    forall i | 0 <= i < |t.slots| ensures SlotSane(cfg, Cancelled(t), t.jobs, t.slots[i]) {
      SlotKept(cfg, Cancelled(s), s.jobs, t.jobs, s.slots[i]);
    }
  }

  lemma ShutStepSlots(cfg: Config, s: State, a: ShutAction)
    requires SlotsSane(cfg, s) && ShutEnabled(s, a)
    ensures SlotsSane(cfg, ShutApply(s, a))
  {
    var t := ShutApply(s, a);
    forall i | 0 <= i < |t.slots| ensures SlotSane(cfg, Cancelled(t), t.jobs, t.slots[i]) {
      SlotKept(cfg, Cancelled(s), s.jobs, t.jobs, s.slots[i]);
    }
  }

  /** After a failed call a slot kills its worker and still owes the reply. */
  lemma FailedCallRecycles(cfg: Config, s: State, i: nat) returns (t1: State, t2: State)
    requires i < |s.slots| && s.slots[i].phase.Done? && s.slots[i].phase.out.Failed?
    ensures Step(cfg, s, OfSlot(i, EndCall), t1)
    ensures Step(cfg, t1, OfSlot(i, KillWorker), t2)
    ensures t2.jobs == s.jobs && t2.shut == s.shut && |t2.slots| == |s.slots|
    ensures t2.slots[i] == Slot(Spawning(ForReply(s.slots[i].phase.job, s.slots[i].phase.out)), None)
    ensures t2.waits == Reap(s.waits, s.slots[i].worker)
  {
    t1 := Apply(cfg, s, OfSlot(i, EndCall));
    t2 := Apply(cfg, t1, OfSlot(i, KillWorker));
  }

  // ---------- Together ----------

  ghost predicate Inv(cfg: Config, s: State) {
    Shape(cfg, s) && Placed(s) && JobsSane(cfg, s) && SlotsSane(cfg, s)
  }

  lemma NewCallInv(cfg: Config, s: State, req: Request)
    requires Inv(cfg, s)
    ensures Inv(cfg, Apply(cfg, s, NewCall(req)))
  {
    var t := Apply(cfg, s, NewCall(req));
    KeptPlaced(cfg, s, t);
    forall i | 0 <= i < |t.slots| ensures SlotSane(cfg, Cancelled(t), t.jobs, t.slots[i]) {
      SlotKept(cfg, Cancelled(s), s.jobs, t.jobs, s.slots[i]);
    }
  }

  lemma ProcessStepInv(cfg: Config, s: State, i: nat, a: ProcessAction)
    requires Inv(cfg, s) && Enabled(cfg, s, OfProcess(i, a))
    ensures Inv(cfg, Apply(cfg, s, OfProcess(i, a)))
  {
    ProcessStepSlots(cfg, s, i, a);
    KeptPlaced(cfg, s, ProcessStep(cfg, s, i, a));
  }

  lemma StepInv(cfg: Config, s: State, a: Action)
    requires WfConfig(cfg) && Inv(cfg, s) && Enabled(cfg, s, a)
    ensures Inv(cfg, Apply(cfg, s, a))
  {
    match a
    case NewCall(req) => NewCallInv(cfg, s, req);
    case OfCaller(c, call) =>
      CallerStepPlaced(cfg, s, c, call);
      CallerStepJobs(cfg, s, c, call);
      CallerStepSlots(cfg, s, c, call);
    case OfSlot(i, step) =>
      SlotStepPlaced(cfg, s, i, step);
      SlotStepJobs(cfg, s, i, step);
      SlotStepSlots(cfg, s, i, step);
    case OfProcess(i, proc) => ProcessStepInv(cfg, s, i, proc);
    case OfShutdown(shut) =>
      ShutStepPlaced(cfg, s, shut);
      ShutStepJobs(cfg, s, shut);
      ShutStepSlots(cfg, s, shut);
  }
}
