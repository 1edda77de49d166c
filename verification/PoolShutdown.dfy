/** Shutdown: whom it answers, that it ends, and what it can leave behind. */
module PoolShutdown {
  import opened JsonValues
  import opened PoolInvariant
  import opened PoolLedger
  import opened PoolMachine
  import opened PoolRuns
  import opened Protocol
  import opened SettingsValues
  import opened Sums
  import opened Wrappers

  predicate Accepted(job: Job) { !job.loc.Unsent? }

  // ---------- Who is answered ----------

  /** When Shutdown has returned, an accepted job has its one reply exactly when its
      send did not land after the drain had passed; there is at most one such
      leftover per slot, it sits in that slot's buffer, and its caller began before
      the cancel. A call without a key, or with affinity off, is never left over. */
  lemma ShutdownAnswers(cfg: Config, s: State, c: JobId)
    requires WfConfig(cfg) && Reachable(cfg, s) && s.shut.Finished?
    requires c < |s.jobs| && Accepted(s.jobs[c])
    ensures s.jobs[c].sends == 1 <==> !s.jobs[c].late
    ensures s.jobs[c].sends <= 1
    ensures !cfg.affinityEnabled || s.jobs[c].req.key == "" ==> s.jobs[c].sends == 1
    ensures s.jobs[c].late ==>
              && s.jobs[c].loc.Buffered? && s.jobs[c].loc.k < |s.bufs| == cfg.size
              && s.bufs[s.jobs[c].loc.k] == [c] && c < s.hist.jobsAtCancel
  {
    ReachableFull(cfg, s);
    assert JobPlaced(s, c) && JobSane(cfg, s.jobs[c]) && JobLateness(s, c);
  }

  /** After the cancel no new call gets a job in. */
  lemma LateCallersRefused(cfg: Config, s: State, c: JobId)
    requires WfConfig(cfg) && Reachable(cfg, s) && Cancelled(s)
    requires s.hist.jobsAtCancel <= c < |s.jobs|
    ensures !Accepted(s.jobs[c])
    ensures s.jobs[c].pc.Returned? ==> s.jobs[c].pc.result == Failed(PoolShuttingDown)
  {
    ReachableFull(cfg, s);
    assert JobLateness(s, c);
  }

  /** A caller waiting on a leftover job is not stuck: its own context frees it. */
  lemma LeftoverCallerCanLeave(cfg: Config, s: State, c: JobId)
    requires WfConfig(cfg) && Reachable(cfg, s)
    requires c < |s.jobs| && s.jobs[c].late && !s.jobs[c].pc.Returned? && s.jobs[c].ctxDone
    ensures Enabled(cfg, s, OfCaller(c, AddHit)) || Enabled(cfg, s, OfCaller(c, Abandon))
    ensures Enabled(cfg, s, OfCaller(c, AddHit)) ==>
              Enabled(cfg, Apply(cfg, s, OfCaller(c, AddHit)), OfCaller(c, Abandon))
  {
    ReachableFull(cfg, s);
    assert JobLateness(s, c) && JobSane(cfg, s.jobs[c]);
  }

  // ---------- The leftover exists ----------

  /** A call for req has passed the check of dispatch, the pool has been cancelled, and
      nothing is buffered. */
  ghost predicate SlippedIn(cfg: Config, s: State, req: Request) {
    && s.jobs == [NewJob(req).(pc := TryAffinity)] && s.hist.jobsAtCancel == 1
    && |s.slots| == |s.bufs| == cfg.size
    && forall k :: 0 <= k < |s.bufs| ==> s.bufs[k] == []
  }

  predicate FirstGone(slots: seq<Slot>, k: nat) {
    forall i :: 0 <= i < |slots| ==> slots[i] == Slot(if i < k then Exited else Spawning(AtStart), None)
  }

  lemma CallThenCancel(cfg: Config, req: Request) returns (s: State)
    requires WfConfig(cfg) && cfg.affinityEnabled && req.key != ""
    ensures Reachable(cfg, s) && SlippedIn(cfg, s, req) && s.shut.WaitSlots? && FirstGone(s.slots, 0)
  {
    var s0 := Init(cfg);
    ReachInit(cfg);
    ReachStep(cfg, s0, NewCall(req));
    var s1 := Apply(cfg, s0, NewCall(req));
    ReachStep(cfg, s1, OfCaller(0, Check));
    var s2 := Apply(cfg, s1, OfCaller(0, Check));
    ReachStep(cfg, s2, OfShutdown(Cancel));
    s := Apply(cfg, s2, OfShutdown(Cancel));
  }

  /** Then one slot after the other leaves. */
  lemma {:induction false} SlotsLeave(cfg: Config, req: Request, k: nat) returns (s: State)
    requires WfConfig(cfg) && cfg.affinityEnabled && req.key != "" && k <= cfg.size
    ensures Reachable(cfg, s) && SlippedIn(cfg, s, req) && s.shut.WaitSlots? && FirstGone(s.slots, k)
  {
    if k == 0 {
      s := CallThenCancel(cfg, req);
    } else {
      var s0 := SlotsLeave(cfg, req, k - 1);
      ReachStep(cfg, s0, OfSlot(k - 1, SpawnCheck));
      var s1 := Apply(cfg, s0, OfSlot(k - 1, SpawnCheck));
      ReachStep(cfg, s1, OfSlot(k - 1, IdleCancelled));
      var s2 := Apply(cfg, s1, OfSlot(k - 1, IdleCancelled));
      ReachStep(cfg, s2, OfSlot(k - 1, CloseWorker));
      s := Apply(cfg, s2, OfSlot(k - 1, CloseWorker));
    }
  }

  /** And the drain passes one empty buffer after the other. */
  lemma {:induction false} BuffersPassed(cfg: Config, req: Request, k: nat) returns (s: State)
    requires WfConfig(cfg) && cfg.affinityEnabled && req.key != "" && k <= cfg.size
    ensures Reachable(cfg, s) && SlippedIn(cfg, s, req)
    ensures s.shut == if k < cfg.size then Drain(k) else Finished
  {
    if k == 0 {
      var s0 := SlotsLeave(cfg, req, cfg.size);
      ReachStep(cfg, s0, OfShutdown(SlotsGone));
      s := Apply(cfg, s0, OfShutdown(SlotsGone));
    } else {
      var s0 := BuffersPassed(cfg, req, k - 1);
      ReachStep(cfg, s0, OfShutdown(DrainNext));
      s := Apply(cfg, s0, OfShutdown(DrainNext));
    }
  }

  /** Shutdown has returned, the call began before it, and its accepted job has no reply
      and nobody left to send one. */
  ghost predicate Leftover(cfg: Config, s: State, c: JobId, req: Request) {
    && Reachable(cfg, s) && s.shut.Finished?
    && c < |s.jobs| && c < s.hist.jobsAtCancel && s.jobs[c].req == req
    && Accepted(s.jobs[c]) && s.jobs[c].sends == 0
  }

  /** The comment in dispatch promises that Shutdown also drains a job that slips
      through the gap between the check and the send. A call can be left over, in some
      run, exactly when it is routed by its key: its send may land after the drain. */
  lemma LeftoverExactly(cfg: Config, req: Request)
    requires WfConfig(cfg)
    ensures (exists s: State, c: JobId :: Leftover(cfg, s, c, req))
            <==> cfg.affinityEnabled && req.key != ""
  {
    if cfg.affinityEnabled && req.key != "" {
      var s := BuffersPassed(cfg, req, cfg.size);
      ReachStep(cfg, s, OfCaller(0, SendAffinity));
      assert Leftover(cfg, Apply(cfg, s, OfCaller(0, SendAffinity)), 0, req);
    } else {
      forall s: State, c: JobId ensures !Leftover(cfg, s, c, req) {
        if Leftover(cfg, s, c, req) { ShutdownAnswers(cfg, s, c); }
      }
    }
  }

  // ---------- The call cut short ----------

  const UNKEYED := Request(JArr([]), "", DEFAULTS, "")

  ghost function OneSlot(): Config {
    Config(1, true, key => 0, (req, result) => true, true)
  }

  /** The only slot has got its worker. */
  lemma WorkerUp() returns (s: State)
    ensures Reachable(OneSlot(), s) && !Cancelled(s) && s.jobs == []
    ensures s.slots == [Slot(Idle, Some(FreshWorker(0)))]
  {
    var cfg := OneSlot();
    var s0 := Init(cfg);
    ReachInit(cfg);
    ReachStep(cfg, s0, OfSlot(0, SpawnCheck));
    var s1 := Apply(cfg, s0, OfSlot(0, SpawnCheck));
    ReachStep(cfg, s1, OfSlot(0, StartOk));
    var s2 := Apply(cfg, s1, OfSlot(0, StartOk));
    ReachStep(cfg, s2, OfSlot(0, ReadyOk));
    s := Apply(cfg, s2, OfSlot(0, ReadyOk));
  }

  /** It receives an unkeyed job. */
  lemma JobReceived() returns (s: State)
    ensures Reachable(OneSlot(), s) && !Cancelled(s)
    ensures s.slots == [Slot(Taken(0), Some(FreshWorker(0)))]
    ensures s.jobs == [NewJob(UNKEYED).(pc := Waiting, loc := InSlot(0), route := ByShared)]
  {
    var cfg := OneSlot();
    var s0 := WorkerUp();
    ReachStep(cfg, s0, NewCall(UNKEYED));
    var s1 := Apply(cfg, s0, NewCall(UNKEYED));
    ReachStep(cfg, s1, OfCaller(0, Check));
    var s2 := Apply(cfg, s1, OfCaller(0, Check));
    ReachStep(cfg, s2, OfCaller(0, Meet(0)));
    s := Apply(cfg, s2, OfCaller(0, Meet(0)));
  }

  /** Its request is written, then the pool is cancelled. */
  lemma CancelledInFlight() returns (s: State)
    ensures Reachable(OneSlot(), s) && Cancelled(s)
    ensures |s.slots| == 1 && s.slots[0].phase == Reading(0) && s.slots[0].worker.Some?
    ensures s.jobs == [NewJob(UNKEYED).(pc := Waiting, loc := InSlot(0), route := ByShared)]
  {
    var cfg := OneSlot();
    var s0 := JobReceived();
    ReachStep(cfg, s0, OfSlot(0, Begin));
    var s1 := Apply(cfg, s0, OfSlot(0, Begin));
    ReachStep(cfg, s1, OfSlot(0, WriteOk(DEFAULTS)));
    var s2 := Apply(cfg, s1, OfSlot(0, WriteOk(DEFAULTS)));
    ReachStep(cfg, s2, OfShutdown(Cancel));
    s := Apply(cfg, s2, OfShutdown(Cancel));
  }

  /** The comment on Shutdown promises that a slot in a call finishes it first. It need
      not: the call's context is a child of the pool's, so after the cancel any call in
      flight can be cut short, and the slot's next steps answer it with an error. Such
      a call exists: see CancelledInFlight. */
  lemma CallCutShort(cfg: Config, s: State, i: nat) returns (t1: State, t2: State, t3: State, t4: State, t5: State)
    requires WfConfig(cfg) && Reachable(cfg, s) && Cancelled(s)
    requires i < |s.slots| && s.slots[i].phase.Reading?
    ensures Step(cfg, s, OfSlot(i, ReadCancelled), t1)
    ensures Step(cfg, t1, OfSlot(i, EndCall), t2)
    ensures Step(cfg, t2, OfSlot(i, KillWorker), t3)
    ensures Step(cfg, t3, OfSlot(i, SpawnCheck), t4)
    ensures Step(cfg, t4, OfSlot(i, SendReply), t5)
    ensures var c := s.slots[i].phase.job;
            c < |t5.jobs| && t5.jobs[c].sends == 1 && t5.jobs[c].answer == Some(Failed(WorkerFailed))
  {
    var c := s.slots[i].phase.job;
    ReachableFull(cfg, s);
    assert SlotPlaced(s, i) && JobSane(cfg, s.jobs[c]);
    t1, t2, t3 := CallAborted(cfg, s, i, c);
    t4, t5 := FailureAnswered(cfg, t3, i, c);
  }

  lemma CallAborted(cfg: Config, s: State, i: nat, c: JobId) returns (t1: State, t2: State, t3: State)
    requires Cancelled(s) && i < |s.slots| && s.slots[i].phase == Reading(c)
    ensures Step(cfg, s, OfSlot(i, ReadCancelled), t1)
    ensures Step(cfg, t1, OfSlot(i, EndCall), t2)
    ensures Step(cfg, t2, OfSlot(i, KillWorker), t3)
    ensures Cancelled(t3) && t3.jobs == s.jobs && |t3.slots| == |s.slots|
    ensures t3.slots[i] == Slot(Spawning(ForReply(c, Failed(WorkerFailed))), None)
  {
    t1 := Apply(cfg, s, OfSlot(i, ReadCancelled));
    t2, t3 := FailedCallRecycles(cfg, t1, i);
  }

  /** A slot that has killed its worker, in a cancelled pool, answers without another. */
  lemma FailureAnswered(cfg: Config, s: State, i: nat, c: JobId) returns (t1: State, t2: State)
    requires Cancelled(s) && i < |s.slots| && s.slots[i] == Slot(Spawning(ForReply(c, Failed(WorkerFailed))), None)
    requires c < |s.jobs| && s.jobs[c].resp == [] && s.jobs[c].sends == 0
    ensures Step(cfg, s, OfSlot(i, SpawnCheck), t1)
    ensures Step(cfg, t1, OfSlot(i, SendReply), t2)
    ensures c < |t2.jobs| && t2.jobs[c].sends == 1 && t2.jobs[c].answer == Some(Failed(WorkerFailed))
  {
    t1 := Apply(cfg, s, OfSlot(i, SpawnCheck));
    t2 := Apply(cfg, t1, OfSlot(i, SendReply));
  }

  // ---------- Termination ----------

  /** The pool's own steps: not a new call, a context, a process, or the cancel. */
  predicate Own(a: Action) {
    && !a.NewCall? && !a.OfProcess?
    && (a.OfCaller? ==> !a.call.ContextFires?)
    && (a.OfShutdown? ==> !a.shut.Cancel?)
  }

  ghost function CallerWeight(job: Job): nat {
    match job.pc
    case Checking => 1
    case TryAffinity => 11
    case Offering => 10
    case CountHit => 2
    case CountSpill => 2
    case Waiting => 1
    case Returned(_) => 0
  }

  ghost function SlotWeight(slot: Slot): nat {
    match slot.phase
    case Spawning(_) => 4
    case Starting(_) => 8
    case AwaitReady(_) => 7
    case ReapFailed(_) => 6
    case Backoff(_) => 5
    case Idle => 2
    case Taken(_) => 9
    case Unavailable(_) => 2
    case Calling(_) => 8
    case Reading(_) => 7
    case Done(_, _) => 6
    case Recycle(_, _) => 5
    case Reply(_, _) => 3
    case Closing => 1
    case Exited => 0
  }

  ghost function BufferWeight(buf: seq<JobId>): nat { 8 * |buf| }

  ghost function DrainWeight(size: nat, shut: Shutting): nat {
    match shut
    case NotYet => 3 * size + 3
    case WaitSlots => 3 * size + 2
    case Drain(k) => if k < size then 3 * (size - k) + 1 else 1
    case DrainReply(k, _) => if k < size then 3 * (size - k) + 2 else 2
    case Finished => 0
  }

  /** Work left in a pool that has been cancelled. */
  ghost function WorkLeft(cfg: Config, s: State): nat {
    Sum(s.jobs, CallerWeight) + Sum(s.slots, SlotWeight) + Sum(s.bufs, BufferWeight)
    + DrainWeight(cfg.size, s.shut)
  }

  lemma MeetShrinks(cfg: Config, s: State, c: JobId, i: nat)
    requires c < |s.jobs| && CallerEnabled(cfg, s, c, Meet(i))
    ensures WorkLeft(cfg, CallerApply(cfg, s, c, Meet(i))) < WorkLeft(cfg, s)
  {
    var t := CallerApply(cfg, s, c, Meet(i));
    SumUpdate(s.jobs, c, t.jobs[c], CallerWeight);
    SumUpdate(s.slots, i, t.slots[i], SlotWeight);
  }

  lemma SendShrinks(cfg: Config, s: State, c: JobId)
    requires c < |s.jobs| && CallerEnabled(cfg, s, c, SendAffinity)
    ensures WorkLeft(cfg, CallerApply(cfg, s, c, SendAffinity)) < WorkLeft(cfg, s)
  {
    var t := CallerApply(cfg, s, c, SendAffinity);
    var k := cfg.route(s.jobs[c].req.key);
    SumUpdate(s.jobs, c, t.jobs[c], CallerWeight);
    if |s.bufs[k]| < 1 { SumUpdate(s.bufs, k, t.bufs[k], BufferWeight); }
  }

  lemma CallerStepShrinks(cfg: Config, s: State, c: JobId, a: CallerAction)
    requires Cancelled(s) && c < |s.jobs| && CallerEnabled(cfg, s, c, a) && !a.ContextFires?
    ensures WorkLeft(cfg, CallerApply(cfg, s, c, a)) < WorkLeft(cfg, s)
  {
    if a.Meet? {
      MeetShrinks(cfg, s, c, a.slot);
    } else if a.SendAffinity? {
      SendShrinks(cfg, s, c);
    } else {
      CallerStepLocal(cfg, s, c, a);
      SumUpdate(s.jobs, c, CallerApply(cfg, s, c, a).jobs[c], CallerWeight);
    }
  }

  lemma TakeStepShrinks(cfg: Config, s: State, i: nat)
    requires i < |s.slots| && SlotEnabled(s, i, TakeBuffered)
    ensures WorkLeft(cfg, SlotApply(cfg, s, i, TakeBuffered)) < WorkLeft(cfg, s)
  {
    var t := SlotApply(cfg, s, i, TakeBuffered);
    var c := s.bufs[i][0];
    SumUpdate(s.slots, i, t.slots[i], SlotWeight);
    SumUpdate(s.jobs, c, t.jobs[c], CallerWeight);
    SumUpdate(s.bufs, i, t.bufs[i], BufferWeight);
  }

  lemma SendStepShrinks(cfg: Config, s: State, i: nat, a: SlotAction)
    requires i < |s.slots| && SlotEnabled(s, i, a) && (a.SendReply? || a.SendUnavailable?)
    ensures WorkLeft(cfg, SlotApply(cfg, s, i, a)) < WorkLeft(cfg, s)
  {
    var t := SlotApply(cfg, s, i, a);
    var c := s.slots[i].phase.job;
    SendStepEffect(cfg, s, i, a);
    SumUpdate(s.slots, i, t.slots[i], SlotWeight);
    SumUpdate(s.jobs, c, t.jobs[c], CallerWeight);
  }

  lemma SendStepEffect(cfg: Config, s: State, i: nat, a: SlotAction)
    requires i < |s.slots| && SlotEnabled(s, i, a) && (a.SendReply? || a.SendUnavailable?)
    ensures var t := SlotApply(cfg, s, i, a);
            var c := s.slots[i].phase.job;
            && t.bufs == s.bufs && t.shut == s.shut
            && t.slots == s.slots[i := t.slots[i]] && SlotWeight(t.slots[i]) < SlotWeight(s.slots[i])
            && c < |s.jobs| == |t.jobs| && t.jobs == s.jobs[c := t.jobs[c]]
            && CallerWeight(t.jobs[c]) == CallerWeight(s.jobs[c])
  {
  }

  lemma SlotStepShrinks(cfg: Config, s: State, i: nat, a: SlotAction)
    requires Cancelled(s) && i < |s.slots| && SlotEnabled(s, i, a)
    requires SlotSane(cfg, Cancelled(s), s.jobs, s.slots[i])
    ensures WorkLeft(cfg, SlotApply(cfg, s, i, a)) < WorkLeft(cfg, s)
  {
    if a.TakeBuffered? {
      TakeStepShrinks(cfg, s, i);
    } else if MovesJob(a) {
      SendStepShrinks(cfg, s, i, a);
    } else {
      SlotStepLocal(cfg, s, i, a);
      SlotStepLighter(cfg, s, i, a);
      SumUpdate(s.slots, i, SlotApply(cfg, s, i, a).slots[i], SlotWeight);
    }
  }

  lemma SlotStepLighter(cfg: Config, s: State, i: nat, a: SlotAction)
    requires Cancelled(s) && i < |s.slots| && SlotEnabled(s, i, a) && !MovesJob(a)
    requires SlotSane(cfg, Cancelled(s), s.jobs, s.slots[i])
    ensures SlotWeight(SlotApply(cfg, s, i, a).slots[i]) < SlotWeight(s.slots[i])
  {
    if SpawnStep(a) { SpawnStepLighter(cfg, s, i, a); }
  }

  lemma SpawnStepLighter(cfg: Config, s: State, i: nat, a: SlotAction)
    requires Cancelled(s) && i < |s.slots| && SlotEnabled(s, i, a) && SpawnStep(a)
    requires SlotSane(cfg, Cancelled(s), s.jobs, s.slots[i])
    ensures SlotWeight(SlotApply(cfg, s, i, a).slots[i]) < SlotWeight(s.slots[i])
  {
  }

  lemma ShutStepShrinks(cfg: Config, s: State, a: ShutAction)
    requires Shape(cfg, s) && Cancelled(s) && ShutEnabled(s, a)
    ensures WorkLeft(cfg, ShutApply(s, a)) < WorkLeft(cfg, s)
  {
    var t := ShutApply(s, a);
    match a
    case DrainTake => DrainTakeShrinks(cfg, s);
    case DrainSend => SumUpdate(s.jobs, s.shut.job, t.jobs[s.shut.job], CallerWeight);
    case _ =>
  }

  lemma DrainTakeShrinks(cfg: Config, s: State)
    requires Shape(cfg, s) && ShutEnabled(s, DrainTake)
    ensures WorkLeft(cfg, ShutApply(s, DrainTake)) < WorkLeft(cfg, s)
  {
    var t := ShutApply(s, DrainTake);
    var k := s.shut.k;
    var c := s.bufs[k][0];
    SumUpdate(s.bufs, k, t.bufs[k], BufferWeight);
    SumUpdate(s.jobs, c, t.jobs[c], CallerWeight);
  }

  lemma ProcessStepWeighsNothing(cfg: Config, s: State, i: nat, a: ProcessAction)
    requires Enabled(cfg, s, OfProcess(i, a))
    ensures WorkLeft(cfg, Apply(cfg, s, OfProcess(i, a))) == WorkLeft(cfg, s)
  {
    var t := ProcessStep(cfg, s, i, a);
    SumUpdate(s.slots, i, t.slots[i], SlotWeight);
  }

  lemma ContextWeighsNothing(cfg: Config, s: State, c: JobId)
    requires c < |s.jobs| && CallerEnabled(cfg, s, c, ContextFires)
    ensures WorkLeft(cfg, CallerApply(cfg, s, c, ContextFires)) == WorkLeft(cfg, s)
  {
    SumUpdate(s.jobs, c, s.jobs[c].(ctxDone := true), CallerWeight);
  }

  /** After the cancel every step of the pool's own strictly shrinks the work left;
      a new call adds one to it, and nothing else changes it. */
  lemma CancelledStepShrinks(cfg: Config, s: State, a: Action)
    requires Shape(cfg, s) && SlotsSane(cfg, s) && Cancelled(s) && Enabled(cfg, s, a)
    ensures Own(a) ==> WorkLeft(cfg, Apply(cfg, s, a)) < WorkLeft(cfg, s)
    ensures a.NewCall? ==> WorkLeft(cfg, Apply(cfg, s, a)) == WorkLeft(cfg, s) + 1
    ensures !Own(a) && !a.NewCall? ==> WorkLeft(cfg, Apply(cfg, s, a)) == WorkLeft(cfg, s)
  {
    match a
    case NewCall(req) =>
    case OfCaller(c, call) =>
      if call.ContextFires? { ContextWeighsNothing(cfg, s, c); } else { CallerStepShrinks(cfg, s, c, call); }
    case OfSlot(i, step) =>
      assert SlotSane(cfg, Cancelled(s), s.jobs, s.slots[i]);
      SlotStepShrinks(cfg, s, i, step);
    case OfProcess(i, proc) => ProcessStepWeighsNothing(cfg, s, i, proc);
    case OfShutdown(shut) => ShutStepShrinks(cfg, s, shut);
  }

  ghost function OwnStep(a: Action): nat { if Own(a) then 1 else 0 }
  ghost function NewStep(a: Action): nat { if a.NewCall? then 1 else 0 }

  /** How many of steps m to n-1 are counted by w. */
  ghost function StepsIn(actions: seq<Action>, m: nat, n: nat, w: Action -> nat): nat
    requires m <= n <= |actions|
  {
    if m == n then 0 else StepsIn(actions, m, n - 1, w) + w(actions[n - 1])
  }

  lemma RunStepShrinks(cfg: Config, states: seq<State>, actions: seq<Action>, n: nat)
    requires WfConfig(cfg) && IsRun(cfg, states, actions) && n < |actions| && Cancelled(states[n])
    ensures Cancelled(states[n + 1])
    ensures OwnStep(actions[n]) + WorkLeft(cfg, states[n + 1]) <= WorkLeft(cfg, states[n]) + NewStep(actions[n])
  {
    RunFull(cfg, states, actions, n);
    CancelledStepShrinks(cfg, states[n], actions[n]);
  }

  /** If each step pays for itself, so does a stretch of steps. */
  lemma {:induction false} Telescopes(actions: seq<Action>, work: seq<nat>, m: nat, n: nat)
    requires m <= n <= |actions| < |work|
    requires forall k :: m <= k < n ==> OwnStep(actions[k]) + work[k + 1] <= work[k] + NewStep(actions[k])
    ensures StepsIn(actions, m, n, OwnStep) + work[n] <= work[m] + StepsIn(actions, m, n, NewStep)
  {
    if m < n {
      Telescopes(actions, work, m, n - 1);
      assert OwnStep(actions[n - 1]) + work[n - 1 + 1] <= work[n - 1] + NewStep(actions[n - 1]);
    }
  }

  lemma {:induction false} StaysCancelled(cfg: Config, states: seq<State>, actions: seq<Action>, m: nat, n: nat)
    requires WfConfig(cfg) && IsRun(cfg, states, actions) && m <= n < |states| && Cancelled(states[m])
    ensures Cancelled(states[n])
  {
    if m < n {
      StaysCancelled(cfg, states, actions, m, n - 1);
      assert states[n - 1 + 1] == Apply(cfg, states[n - 1], actions[n - 1]);
    }
  }

  /** So a run takes at most a bounded number of own steps after the cancel, however
      the processes, the contexts and the scheduler behave. */
  lemma ShutdownTerminates(cfg: Config, states: seq<State>, actions: seq<Action>, m: nat, n: nat)
    requires WfConfig(cfg) && IsRun(cfg, states, actions) && m <= n < |states| && Cancelled(states[m])
    ensures StepsIn(actions, m, n, OwnStep) + WorkLeft(cfg, states[n])
              <= WorkLeft(cfg, states[m]) + StepsIn(actions, m, n, NewStep)
  {
    var work := seq(|states|, k requires 0 <= k < |states| => WorkLeft(cfg, states[k]));
    forall k | m <= k < n ensures OwnStep(actions[k]) + work[k + 1] <= work[k] + NewStep(actions[k]) {
      StaysCancelled(cfg, states, actions, m, k);
      RunStepShrinks(cfg, states, actions, k);
    }
    Telescopes(actions, work, m, n);
  }

  // ---------- Where it ends ----------

  /** A step a slot can take by itself, whatever its worker does. */
  function NextStep(slot: Slot): SlotAction {
    match slot.phase
    case Spawning(_) => SpawnCheck
    case Starting(_) => StartOk
    case AwaitReady(_) => ReadyFails
    case ReapFailed(_) => ReapFailedStart
    case Backoff(_) => BackoffTimer
    case Idle => IdleCancelled
    case Taken(_) => Begin
    case Unavailable(_) => SendUnavailable
    case Calling(_) => WriteFails
    case Reading(_) => ReadTimeout
    case Done(_, _) => EndCall
    case Recycle(_, _) => KillWorker
    case Reply(_, _) => SendReply
    case Closing => CloseWorker
    case Exited => CloseWorker
  }

  /** Only an idle slot can be without a step, and only before the cancel. */
  lemma SlotNeverStuck(cfg: Config, s: State, i: nat)
    requires FullInv(cfg, s) && i < |s.slots| && !s.slots[i].phase.Exited?
    requires s.slots[i].phase.Idle? ==> Cancelled(s)
    ensures Enabled(cfg, s, OfSlot(i, NextStep(s.slots[i])))
    ensures Own(OfSlot(i, NextStep(s.slots[i])))
  {
    assert SlotPlaced(s, i);
    var held := Holds(s.slots[i].phase);
    if held.Some? { assert JobSane(cfg, s.jobs[held.value]); }
  }

  /** A cancelled pool with no step of its own left has finished: Shutdown has
      returned, and a caller that has not is waiting, with its context alive, for a
      job sent after the drain. */
  lemma RestIsShutdown(cfg: Config, s: State)
    requires WfConfig(cfg) && Reachable(cfg, s) && Cancelled(s)
    requires forall a :: Own(a) ==> !Enabled(cfg, s, a)
    ensures s.shut.Finished?
    ensures forall i :: 0 <= i < |s.slots| ==> s.slots[i].phase.Exited?
    ensures forall c :: 0 <= c < |s.jobs| ==>
              s.jobs[c].pc.Returned? || (s.jobs[c].pc.Waiting? && s.jobs[c].late && !s.jobs[c].ctxDone)
  {
    ReachableFull(cfg, s);
    DrainNeverStuck(cfg, s);
    forall i | 0 <= i < |s.slots| ensures s.slots[i].phase.Exited? { RestingSlot(cfg, s, i); }
    assert !Enabled(cfg, s, OfShutdown(SlotsGone));
    assert !Enabled(cfg, s, OfShutdown(DrainTake));
    assert !Enabled(cfg, s, OfShutdown(DrainNext));
    assert !Enabled(cfg, s, OfShutdown(DrainSend));
    assert s.shut.Finished?;
    forall c | 0 <= c < |s.jobs|
      ensures s.jobs[c].pc.Returned? || (s.jobs[c].pc.Waiting? && s.jobs[c].late && !s.jobs[c].ctxDone)
    {
      RestingCaller(cfg, s, c);
    }
  }

  lemma DrainNeverStuck(cfg: Config, s: State)
    requires FullInv(cfg, s)
    ensures s.shut.Drain? ==> Enabled(cfg, s, OfShutdown(DrainTake)) || Enabled(cfg, s, OfShutdown(DrainNext))
    ensures s.shut.DrainReply? ==> Enabled(cfg, s, OfShutdown(DrainSend))
  {
    if s.shut.Drain? { assert BufferPlaced(s, s.shut.k); }
    if s.shut.DrainReply? { assert JobSane(cfg, s.jobs[s.shut.job]); }
  }

  lemma RestingSlot(cfg: Config, s: State, i: nat)
    requires FullInv(cfg, s) && Cancelled(s) && i < |s.slots|
    requires forall a :: Own(a) ==> !Enabled(cfg, s, a)
    ensures s.slots[i].phase.Exited?
  {
    var a := OfSlot(i, NextStep(s.slots[i]));
    assert !Enabled(cfg, s, a);
    if !s.slots[i].phase.Exited? {
      SlotNeverStuck(cfg, s, i);
    }
  }

  /** A step a caller can take by itself in a cancelled pool. */
  function NextCall(job: Job): CallerAction {
    match job.pc
    case Checking => Check
    case TryAffinity => SendAffinity
    case Offering => Refused
    case CountHit => AddHit
    case CountSpill => AddSpill
    case Waiting => if job.resp != [] then Collect else Abandon
    case Returned(_) => Collect
  }

  lemma RestingCaller(cfg: Config, s: State, c: JobId)
    requires WfConfig(cfg) && FullInv(cfg, s) && s.shut.Finished? && c < |s.jobs|
    requires forall a :: Own(a) ==> !Enabled(cfg, s, a)
    ensures s.jobs[c].pc.Returned? || (s.jobs[c].pc.Waiting? && s.jobs[c].late && !s.jobs[c].ctxDone)
  {
    assert !Enabled(cfg, s, OfCaller(c, NextCall(s.jobs[c])));
    assert JobSane(cfg, s.jobs[c]) && JobPlaced(s, c) && JobLateness(s, c);
  }
}
