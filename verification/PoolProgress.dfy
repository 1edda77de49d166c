/** Before the cancel the pool loses no slot and never gets stuck with a caller. */
module PoolProgress {
  import opened PoolInvariant
  import opened PoolMachine
  import opened PoolRuns
  import opened PoolShutdown
  import opened Protocol
  import opened SettingsValues
  import opened Wrappers

  /** No slot is lost before the cancel: none has left or is leaving, one at its
      select has a live worker, and the respawn inside the loop is never used. */
  lemma NoSlotLost(cfg: Config, s: State, i: nat)
    requires WfConfig(cfg) && Reachable(cfg, s) && !Cancelled(s) && i < |s.slots|
    ensures !s.slots[i].phase.Exited? && !s.slots[i].phase.Closing? && !s.slots[i].phase.Unavailable?
    ensures s.slots[i].phase.Idle? || s.slots[i].phase.Taken? || s.slots[i].phase.Reply? ==> s.slots[i].worker.Some?
    ensures InCall(s.slots[i].phase) ==> s.slots[i].worker.Some?
    ensures s.slots[i].phase.Spawning? ==> !s.slots[i].phase.k.ForJob?
  {
    ReachableFull(cfg, s);
    assert SlotSane(cfg, Cancelled(s), s.jobs, s.slots[i]);
  }

  /** The step that brings a caller nearer to its return: its own, or one of the
      slot it depends on. */
  ghost function HelpfulStep(cfg: Config, s: State, c: JobId): Action
    requires c < |s.jobs|
  {
    var job := s.jobs[c];
    match job.pc
    case Checking => OfCaller(c, Check)
    case TryAffinity => OfCaller(c, SendAffinity)
    case CountHit => OfCaller(c, AddHit)
    case CountSpill => OfCaller(c, AddSpill)
    case Offering =>
      if |s.slots| > 0 && !s.slots[0].phase.Idle? then OfSlot(0, NextStep(s.slots[0])) else OfCaller(c, Meet(0))
    case Waiting => (
      match job.loc
      case Buffered(k) =>
        if k < |s.slots| && !s.slots[k].phase.Idle? then OfSlot(k, NextStep(s.slots[k])) else OfSlot(k, TakeBuffered)
      case InSlot(i) => if i < |s.slots| then OfSlot(i, NextStep(s.slots[i])) else OfCaller(c, Collect)
      case _ => OfCaller(c, Collect))
    case Returned(_) => OfCaller(c, Collect)
  }

  lemma BusySlotMoves(cfg: Config, s: State, i: nat)
    requires WfConfig(cfg) && Reachable(cfg, s) && !Cancelled(s) && i < |s.slots|
    ensures !s.slots[i].phase.Idle? ==>
              Enabled(cfg, s, OfSlot(i, NextStep(s.slots[i]))) && Own(OfSlot(i, NextStep(s.slots[i])))
  {
    ReachableFull(cfg, s);
    NoSlotLost(cfg, s, i);
    if !s.slots[i].phase.Idle? { SlotNeverStuck(cfg, s, i); }
  }

  lemma PoolHasSlots(cfg: Config, s: State, c: JobId)
    requires WfConfig(cfg) && Reachable(cfg, s) && c < |s.jobs|
    ensures |s.slots| == |s.bufs| >= 1 && cfg.route(s.jobs[c].req.key) < |s.bufs|
  {
    ReachableFull(cfg, s);
  }

  /** Before the cancel a waiting caller's job is in a buffer, in a slot, or answered. */
  lemma WaitingSomewhere(cfg: Config, s: State, c: JobId)
    requires WfConfig(cfg) && Reachable(cfg, s) && !Cancelled(s)
    requires c < |s.jobs| && s.jobs[c].pc.Waiting?
    ensures match s.jobs[c].loc
            case Buffered(k) => k < |s.slots| && k < |s.bufs| && s.bufs[k] == [c]
            case InSlot(i) => i < |s.slots| && Holds(s.slots[i].phase) == Some(c)
            case Answered => s.jobs[c].resp != []
            case _ => false
  {
    ReachableFull(cfg, s);
    assert JobSane(cfg, s.jobs[c]) && JobPlaced(s, c);
  }

  /** No reachable state before the cancel is stuck with a caller that has not
      returned; and an offering caller and an idle slot can always meet. */
  lemma NeverStuckBeforeCancel(cfg: Config, s: State, c: JobId)
    requires WfConfig(cfg) && Reachable(cfg, s) && !Cancelled(s)
    requires c < |s.jobs| && !s.jobs[c].pc.Returned?
    ensures Own(HelpfulStep(cfg, s, c)) && Enabled(cfg, s, HelpfulStep(cfg, s, c))
    ensures forall i :: 0 <= i < |s.slots| && s.slots[i].phase.Idle? && s.jobs[c].pc.Offering? ==>
              Enabled(cfg, s, OfCaller(c, Meet(i)))
  {
    var job := s.jobs[c];
    PoolHasSlots(cfg, s, c);
    BusySlotMoves(cfg, s, 0);
    if job.pc.Waiting? {
      WaitingSomewhere(cfg, s, c);
      if job.loc.Buffered? { BusySlotMoves(cfg, s, job.loc.k); }
      else if job.loc.InSlot? { BusySlotMoves(cfg, s, job.loc.i); }
    }
  }

  // ---------- Every branch is open when its turn comes ----------

  /** What a caller can do next, in any reachable state: the one thing its place in the
      code says, and at its two selects whichever of the branches is ready. */
  lemma CallerBranches(cfg: Config, s: State, c: JobId, i: nat)
    requires WfConfig(cfg) && Reachable(cfg, s) && c < |s.jobs|
    ensures Enabled(cfg, s, OfCaller(c, Check)) <==> s.jobs[c].pc.Checking?
    ensures Enabled(cfg, s, OfCaller(c, SendAffinity)) <==> s.jobs[c].pc.TryAffinity?
    ensures Enabled(cfg, s, OfCaller(c, AddHit)) <==> s.jobs[c].pc.CountHit?
    ensures Enabled(cfg, s, OfCaller(c, Meet(i)))
            <==> s.jobs[c].pc.Offering? && i < |s.slots| && s.slots[i].phase.Idle?
    ensures Enabled(cfg, s, OfCaller(c, AddSpill)) <==> s.jobs[c].pc.CountSpill?
    ensures Enabled(cfg, s, OfCaller(c, Refused)) <==> s.jobs[c].pc.Offering? && s.shut != NotYet
    ensures Enabled(cfg, s, OfCaller(c, GiveUp)) <==> s.jobs[c].pc.Offering? && s.jobs[c].ctxDone
    ensures Enabled(cfg, s, OfCaller(c, Collect)) <==> s.jobs[c].pc.Waiting? && s.jobs[c].resp != []
    ensures Enabled(cfg, s, OfCaller(c, Abandon)) <==> s.jobs[c].pc.Waiting? && s.jobs[c].ctxDone
    ensures Enabled(cfg, s, OfCaller(c, ContextFires)) <==> !s.jobs[c].ctxDone
  {
    PoolHasSlots(cfg, s, c);
  }

  lemma SlotBasics(cfg: Config, s: State, i: nat)
    requires WfConfig(cfg) && Reachable(cfg, s) && i < |s.slots|
    ensures i < |s.bufs| && (s.bufs[i] != [] ==> s.bufs[i][0] < |s.jobs|)
    ensures s.slots[i].phase.AwaitReady? || s.slots[i].phase.Calling? || s.slots[i].phase.Reading? ==>
              s.slots[i].worker.Some?
    ensures Holds(s.slots[i].phase).Some? ==>
              Holds(s.slots[i].phase).value < |s.jobs| && s.jobs[Holds(s.slots[i].phase).value].resp == []
  {
    ReachableFull(cfg, s);
    assert SlotSane(cfg, Cancelled(s), s.jobs, s.slots[i]) && SlotPlaced(s, i) && BufferPlaced(s, i);
    var held := Holds(s.slots[i].phase);
    if held.Some? { assert JobSane(cfg, s.jobs[held.value]); }
  }

  /** What a slot can do about its worker. */
  lemma SpawnBranches(cfg: Config, s: State, i: nat)
    requires WfConfig(cfg) && Reachable(cfg, s) && i < |s.slots|
    ensures Enabled(cfg, s, OfSlot(i, SpawnCheck)) <==> s.slots[i].phase.Spawning?
    ensures Enabled(cfg, s, OfSlot(i, StartOk)) <==> s.slots[i].phase.Starting?
    ensures Enabled(cfg, s, OfSlot(i, StartFails)) <==> s.slots[i].phase.Starting?
    ensures Enabled(cfg, s, OfSlot(i, ReadyOk))
            <==> s.slots[i].phase.AwaitReady? && s.slots[i].worker.Some? && !s.slots[i].worker.value.crashed
    ensures s.slots[i].phase.AwaitReady? ==> s.slots[i].worker.Some?
    ensures Enabled(cfg, s, OfSlot(i, ReadyFails)) <==> s.slots[i].phase.AwaitReady?
    ensures Enabled(cfg, s, OfSlot(i, ReapFailedStart)) <==> s.slots[i].phase.ReapFailed?
    ensures Enabled(cfg, s, OfSlot(i, BackoffTimer)) <==> s.slots[i].phase.Backoff?
    ensures Enabled(cfg, s, OfSlot(i, BackoffCancelled)) <==> s.slots[i].phase.Backoff? && s.shut != NotYet
    ensures Enabled(cfg, s, OfSlot(i, IdleCancelled)) <==> s.slots[i].phase.Idle? && s.shut != NotYet
    ensures Enabled(cfg, s, OfSlot(i, KillWorker)) <==> s.slots[i].phase.Recycle?
    ensures Enabled(cfg, s, OfSlot(i, CloseWorker)) <==> s.slots[i].phase.Closing?
  {
    SlotBasics(cfg, s, i);
  }

  /** And about a job, up to the write of its request. */
  lemma TakeBranches(cfg: Config, s: State, i: nat, config: Settings)
    requires WfConfig(cfg) && Reachable(cfg, s) && i < |s.slots|
    ensures i < |s.bufs|
    ensures Enabled(cfg, s, OfSlot(i, TakeBuffered)) <==> s.slots[i].phase.Idle? && s.bufs[i] != []
    ensures Enabled(cfg, s, OfSlot(i, Begin)) <==> s.slots[i].phase.Taken?
    ensures s.slots[i].phase.Calling? ==> s.slots[i].worker.Some?
    ensures Enabled(cfg, s, OfSlot(i, WriteOk(config)))
            <==> s.slots[i].phase.Calling? && !s.slots[i].worker.value.crashed
    ensures Enabled(cfg, s, OfSlot(i, WriteFails)) <==> s.slots[i].phase.Calling?
  {
    SlotBasics(cfg, s, i);
  }

  /** And from there on. No send of a reply ever waits for room. */
  lemma AnswerBranches(cfg: Config, s: State, i: nat)
    requires WfConfig(cfg) && Reachable(cfg, s) && i < |s.slots|
    ensures s.slots[i].phase.Reading? ==> s.slots[i].worker.Some?
    ensures Enabled(cfg, s, OfSlot(i, ReadGot))
            <==> s.slots[i].phase.Reading? && s.slots[i].worker.value.reader.Got?
    ensures Enabled(cfg, s, OfSlot(i, ReadTimeout)) <==> s.slots[i].phase.Reading?
    ensures Enabled(cfg, s, OfSlot(i, ReadCancelled)) <==> s.slots[i].phase.Reading? && s.shut != NotYet
    ensures Enabled(cfg, s, OfSlot(i, EndCall)) <==> s.slots[i].phase.Done?
    ensures Enabled(cfg, s, OfSlot(i, SendReply)) <==> s.slots[i].phase.Reply?
    ensures Enabled(cfg, s, OfSlot(i, SendUnavailable)) <==> s.slots[i].phase.Unavailable?
  {
    SlotBasics(cfg, s, i);
  }

  /** What Shutdown can do. */
  lemma ShutdownBranches(cfg: Config, s: State)
    requires WfConfig(cfg) && Reachable(cfg, s)
    ensures Enabled(cfg, s, OfShutdown(Cancel)) <==> s.shut.NotYet?
    ensures Enabled(cfg, s, OfShutdown(SlotsGone))
            <==> s.shut.WaitSlots? && forall i :: 0 <= i < |s.slots| ==> s.slots[i].phase.Exited?
    ensures s.shut.Drain? ==> s.shut.k < |s.bufs|
    ensures Enabled(cfg, s, OfShutdown(DrainTake)) <==> s.shut.Drain? && s.bufs[s.shut.k] != []
    ensures Enabled(cfg, s, OfShutdown(DrainNext)) <==> s.shut.Drain? && s.bufs[s.shut.k] == []
    ensures Enabled(cfg, s, OfShutdown(DrainSend)) <==> s.shut.DrainReply?
  {
    ReachableFull(cfg, s);
    DrainNeverStuck(cfg, s);
  }

  /** What a live process may do at any time: take the next request, fail it, answer it
      with a good result, or crash; and if it is not strict write an error, junk, or a
      result under an id that no request has. */
  lemma ProcessBranches(cfg: Config, w: Worker, id: int, result: Result)
    requires !w.crashed
    ensures ProcessEnabled(cfg, w, Crash)
    ensures ProcessEnabled(cfg, w, Consume) <==> w.current.None? && w.stdin != []
    ensures w.current.Some? ==> ProcessEnabled(cfg, w, Answer(ErrLine(w.current.value.id), false))
    ensures w.current.Some? && cfg.good(w.current.value.req, result) && result.cold == !w.served ==>
              ProcessEnabled(cfg, w, Answer(OkLine(w.current.value.id, result), true))
    ensures !cfg.strict ==>
              && ProcessEnabled(cfg, w, Emit(JunkLine)) && ProcessEnabled(cfg, w, Emit(ErrLine(id)))
              && ProcessEnabled(cfg, w, Emit(NoResultLine(id)))
    ensures !cfg.strict && id != w.nextId + |w.stdout| && id != w.nextId + 1 + |w.stdout| ==>
              (forall k :: 0 <= k < |w.seen| ==> w.seen[k].id != id) ==>
              ProcessEnabled(cfg, w, Emit(OkLine(id, result)))
  {
  }
}
