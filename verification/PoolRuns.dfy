/** The invariant of every reachable state of the pool. */
module PoolRuns {
  import opened PoolInvariant
  import opened PoolLedger
  import opened PoolMachine
  import opened Protocol
  import opened Sums
  import opened Wrappers

  // ---------- Shutdown ----------

  predicate Draining(s: State) { s.shut.Drain? || s.shut.DrainReply? || s.shut.Finished? }

  ghost predicate CallerTooLate(job: Job) {
    job.loc.Unsent? && (job.pc.Checking? || job.pc == Returned(Failed(PoolShuttingDown)))
  }

  ghost predicate JobLateness(s: State, c: JobId)
    requires c < |s.jobs|
  {
    && (s.jobs[c].late ==> s.jobs[c].loc.Buffered? && DrainedPast(s, s.jobs[c].loc.k))
    && (s.jobs[c].loc.Buffered? && DrainedPast(s, s.jobs[c].loc.k) ==> s.jobs[c].late)
    && (Cancelled(s) && s.hist.jobsAtCancel <= c ==> CallerTooLate(s.jobs[c]))
  }

  /** The drain starts when every slot is gone; what it leaves behind was sent after
      it had passed; nobody who begins after the cancel gets a job in. */
  ghost predicate ShutSane(s: State) {
    && (Draining(s) ==> forall i :: 0 <= i < |s.slots| ==> s.slots[i].phase.Exited?)
    && (Cancelled(s) ==> s.hist.jobsAtCancel <= |s.jobs|)
    && (forall c :: 0 <= c < |s.jobs| ==> JobLateness(s, c))
  }

  lemma CallerStepOwnLateness(cfg: Config, s: State, c: JobId, a: CallerAction)
    requires c < |s.jobs| && JobSane(cfg, s.jobs[c]) && CallerEnabled(cfg, s, c, a)
    requires JobLateness(s, c) && !(a.Meet? && Draining(s))
    ensures var t := CallerApply(cfg, s, c, a);
            && |t.jobs| == |s.jobs| && t.jobs == s.jobs[c := t.jobs[c]] && t.shut == s.shut
            && t.hist.jobsAtCancel == s.hist.jobsAtCancel && JobLateness(t, c)
  {
  }

  lemma CallerStepShut(cfg: Config, s: State, c: JobId, a: CallerAction)
    requires ShutSane(s) && JobsSane(cfg, s) && c < |s.jobs| && CallerEnabled(cfg, s, c, a)
    ensures ShutSane(CallerApply(cfg, s, c, a))
  {
    var t := CallerApply(cfg, s, c, a);
    assert JobSane(cfg, s.jobs[c]) && JobLateness(s, c);
    CallerStepOwnLateness(cfg, s, c, a);
    CallerStepFrame(cfg, s, c, a);
    forall x | 0 <= x < |t.jobs| ensures JobLateness(t, x) { if x != c { assert JobLateness(s, x); } }
  }

  lemma SlotStepShut(cfg: Config, s: State, i: nat, a: SlotAction)
    requires ShutSane(s) && Shape(cfg, s) && Placed(s) && i < |s.slots| && SlotEnabled(s, i, a)
    ensures ShutSane(SlotApply(cfg, s, i, a))
  {
    var t := SlotApply(cfg, s, i, a);
    assert SlotPlaced(s, i) && BufferPlaced(s, i) && !Draining(s);
    if MovesJob(a) {
      forall x | 0 <= x < |t.jobs| ensures JobLateness(t, x) { assert JobLateness(s, x); }
    } else {
      SlotStepLocal(cfg, s, i, a);
      assert t.hist.jobsAtCancel == s.hist.jobsAtCancel;
      forall x | 0 <= x < |t.jobs| ensures JobLateness(t, x) { assert JobLateness(s, x); }
    }
  }

  lemma ShutStepShut(cfg: Config, s: State, a: ShutAction)
    requires ShutSane(s) && Shape(cfg, s) && Placed(s) && ShutEnabled(s, a)
    ensures ShutSane(ShutApply(s, a))
  {
    var t := ShutApply(s, a);
    if s.shut.Drain? { assert BufferPlaced(s, s.shut.k); }
    forall x | 0 <= x < |t.jobs| ensures JobLateness(t, x) {
      assert JobLateness(s, x) && JobPlaced(s, x);
    }
  }

  // ---------- Cold results ----------

  ghost predicate ColdLine(line: Line) { line.OkLine? && line.result.cold }

  /** Every cold result on its way out of this process is for job c. */
  ghost predicate ColdFor(hist: History, w: Worker, c: JobId) {
    && (forall n :: 0 <= n < |w.stdout| ==>
          ColdLine(w.stdout[n]) ==> w.pid in hist.coldOf && hist.coldOf[w.pid] == c)
    && (w.reader.Got? && w.reader.line.Some? && ColdLine(w.reader.line.value) ==>
          w.pid in hist.coldOf && hist.coldOf[w.pid] == c)
  }

  ghost predicate SlotCold(cfg: Config, hist: History, slot: Slot) {
    slot.worker.Some? ==>
      var w := slot.worker.value;
      && (slot.phase.AwaitReady? || slot.phase.ReapFailed? || w.pid in hist.ready)
      && (cfg.strict ==>
            && (w.pid in hist.coldOf ==> w.served)
            && (slot.phase.Reading? ==> ColdFor(hist, w, slot.phase.job))
            && ((slot.phase.Done? || slot.phase.Reply?) && slot.phase.out.Ok? && slot.phase.out.result.cold ==>
                  w.pid in hist.coldOf && hist.coldOf[w.pid] == slot.phase.job))
  }

  ghost predicate ColdAnswer(job: Job) {
    job.answer.Some? && job.answer.value.Ok? && job.answer.value.result.cold
  }

  ghost predicate JobCold(s: State, c: JobId)
    requires c < |s.jobs|
  {
    ColdAnswer(s.jobs[c]) ==>
      && s.jobs[c].servedBy in s.hist.coldOf
      && s.hist.coldOf[s.jobs[c].servedBy] == c
      && s.jobs[c].servedBy in s.hist.ready
  }

  /** Each process flags at most one job cold, and only after it got ready. */
  ghost predicate ColdSane(cfg: Config, s: State) {
    && (forall pid :: pid in s.hist.coldOf || pid in s.hist.ready ==> pid < |s.waits|)
    && (forall i :: 0 <= i < |s.slots| ==> SlotCold(cfg, s.hist, s.slots[i]))
    && (cfg.strict ==> forall c :: 0 <= c < |s.jobs| ==> JobCold(s, c))
  }

  lemma ProcessStepCold(cfg: Config, s: State, i: nat, a: ProcessAction)
    requires Inv(cfg, s) && ProcessesOwned(s) && ColdSane(cfg, s) && Enabled(cfg, s, OfProcess(i, a))
    ensures ColdSane(cfg, Apply(cfg, s, OfProcess(i, a)))
  {
    var t := ProcessStep(cfg, s, i, a);
    var w := s.slots[i].worker.value;
    assert SlotCold(cfg, s.hist, s.slots[i]) && WorkerOwned(s, i);
    assert SlotSane(cfg, Cancelled(s), s.jobs, s.slots[i]);
    OwnProcessStepCold(cfg, s, i, a);
    forall k | 0 <= k < |t.slots| && k != i ensures SlotCold(cfg, t.hist, t.slots[k]) {
      assert SlotCold(cfg, s.hist, s.slots[k]) && WorkerOwned(s, k);
    }
    if cfg.strict {
      forall c | 0 <= c < |t.jobs| ensures JobCold(t, c) { assert JobCold(s, c); }
    }
  }

  lemma OwnProcessStepCold(cfg: Config, s: State, i: nat, a: ProcessAction)
    requires i < |s.slots| && s.slots[i].worker.Some? && ProcessEnabled(cfg, s.slots[i].worker.value, a)
    requires SlotSane(cfg, Cancelled(s), s.jobs, s.slots[i]) && SlotCold(cfg, s.hist, s.slots[i])
    ensures var t := ProcessStep(cfg, s, i, a); SlotCold(cfg, t.hist, t.slots[i])
    ensures var t := ProcessStep(cfg, s, i, a);
            && t.hist.ready == s.hist.ready
            && (t.hist.coldOf != s.hist.coldOf ==>
                  && t.hist.coldOf.Keys == s.hist.coldOf.Keys + {s.slots[i].worker.value.pid}
                  && (cfg.strict ==> s.slots[i].worker.value.pid !in s.hist.coldOf)
                  && forall pid :: pid in s.hist.coldOf && pid != s.slots[i].worker.value.pid ==>
                       t.hist.coldOf[pid] == s.hist.coldOf[pid])
  {
    var t := ProcessStep(cfg, s, i, a);
    var w := s.slots[i].worker.value;
    var v := t.slots[i].worker.value;
    if cfg.strict && s.slots[i].phase.Reading? {
      assert ColdFor(s.hist, w, s.slots[i].phase.job);
      if a.Answer? {
        assert w.stdout == [] && !(w.reader.Got? && w.reader.line.Some?);
        assert v.stdout == [a.line];
      }
    }
  }

  lemma SlotStepCold(cfg: Config, s: State, i: nat, a: SlotAction)
    requires Inv(cfg, s) && ProcessesOwned(s) && ColdSane(cfg, s) && i < |s.slots| && SlotEnabled(s, i, a)
    ensures ColdSane(cfg, SlotApply(cfg, s, i, a))
  {
    var t := SlotApply(cfg, s, i, a);
    assert SlotCold(cfg, s.hist, s.slots[i]) && WorkerOwned(s, i) && SlotPlaced(s, i);
    assert SlotSane(cfg, Cancelled(s), s.jobs, s.slots[i]);
    SlotStepHistory(cfg, s, i, a);
    OwnSlotStepCold(cfg, s, i, a);
    forall k | 0 <= k < |t.slots| && k != i ensures SlotCold(cfg, t.hist, t.slots[k]) {
      assert SlotCold(cfg, s.hist, s.slots[k]) && t.slots[k] == s.slots[k];
    }
    if cfg.strict {
      forall c | 0 <= c < |t.jobs| ensures JobCold(t, c) {
        assert JobCold(s, c);
        if a.SendReply? && c == s.slots[i].phase.job { assert ColdReply(s.hist, s.slots[i], c); }
      }
    }
  }

  ghost predicate ColdReply(hist: History, slot: Slot, c: JobId) {
    slot.phase.Reply? && slot.phase.out.Ok? && slot.phase.out.result.cold ==>
      slot.worker.Some? && slot.worker.value.pid in hist.ready
      && slot.worker.value.pid in hist.coldOf && hist.coldOf[slot.worker.value.pid] == c
  }

  lemma SlotStepHistory(cfg: Config, s: State, i: nat, a: SlotAction)
    requires i < |s.slots| && SlotEnabled(s, i, a)
    requires s.slots[i].worker.Some? ==> s.slots[i].worker.value.pid < |s.waits|
    requires s.slots[i].phase.Starting? ==> s.slots[i].worker.None?
    ensures var t := SlotApply(cfg, s, i, a);
            && t.hist.coldOf == s.hist.coldOf && s.hist.ready <= t.hist.ready
            && |s.waits| <= |t.waits|
            && (forall pid :: pid in t.hist.ready && pid !in s.hist.ready ==> pid < |s.waits|)
            && t.slots == s.slots[i := t.slots[i]]
            && (!a.SendReply? && !a.SendUnavailable? ==>
                  forall c :: 0 <= c < |s.jobs| ==>
                    t.jobs[c].answer == s.jobs[c].answer && t.jobs[c].servedBy == s.jobs[c].servedBy)
  {
  }

  lemma OwnSlotStepCold(cfg: Config, s: State, i: nat, a: SlotAction)
    requires i < |s.slots| && SlotEnabled(s, i, a)
    requires SlotSane(cfg, Cancelled(s), s.jobs, s.slots[i]) && SlotCold(cfg, s.hist, s.slots[i])
    requires |s.waits| !in s.hist.coldOf
    ensures var t := SlotApply(cfg, s, i, a); SlotCold(cfg, t.hist, t.slots[i])
  {
    if !SpawnStep(a) { CallStepCold(cfg, s, i, a); }
  }

  lemma CallStepCold(cfg: Config, s: State, i: nat, a: SlotAction)
    requires i < |s.slots| && SlotEnabled(s, i, a) && !SpawnStep(a)
    requires SlotSane(cfg, Cancelled(s), s.jobs, s.slots[i]) && SlotCold(cfg, s.hist, s.slots[i])
    ensures var t := SlotApply(cfg, s, i, a); SlotCold(cfg, t.hist, t.slots[i])
  {
  }

  lemma SameJobsCold(cfg: Config, s: State, t: State)
    requires ColdSane(cfg, s) && |s.jobs| <= |t.jobs| && t.waits == s.waits
    requires t.hist.ready == s.hist.ready && t.hist.coldOf == s.hist.coldOf
    requires |t.slots| == |s.slots| && forall i :: 0 <= i < |s.slots| ==>
               t.slots[i].worker == s.slots[i].worker
               && (t.slots[i].phase == s.slots[i].phase || (s.slots[i].phase.Idle? && t.slots[i].phase.Taken?))
    requires forall c :: 0 <= c < |s.jobs| && ColdAnswer(t.jobs[c]) ==>
               ColdAnswer(s.jobs[c]) && t.jobs[c].servedBy == s.jobs[c].servedBy
    requires forall c :: |s.jobs| <= c < |t.jobs| ==> t.jobs[c].answer.None?
    ensures ColdSane(cfg, t)
  {
    forall i | 0 <= i < |t.slots| ensures SlotCold(cfg, t.hist, t.slots[i]) {
      assert SlotCold(cfg, s.hist, s.slots[i]);
    }
    if cfg.strict {
      forall c | 0 <= c < |t.jobs| ensures JobCold(t, c) { if c < |s.jobs| { assert JobCold(s, c); } }
    }
  }

  // ---------- The whole invariant ----------

  ghost predicate FullInv(cfg: Config, s: State) {
    && Inv(cfg, s)
    && ProcessesOwned(s)
    && BusyCounted(s)
    && HitsCounted(s)
    && InOrder(cfg, s)
    && ShutSane(s)
    && ColdSane(cfg, s)
  }

  lemma InitFull(cfg: Config)
    ensures FullInv(cfg, Init(cfg))
  {
    var s := Init(cfg);
    SumZero(s.slots, Live);
    SumZero(s.slots, Busy);
  }

  lemma NewCallFull(cfg: Config, s: State, req: Request)
    requires WfConfig(cfg) && FullInv(cfg, s)
    ensures FullInv(cfg, Apply(cfg, s, NewCall(req)))
  {
    var t := Apply(cfg, s, NewCall(req));
    NewCallInv(cfg, s, req);
    KeptProcesses(s, t);
    AdvanceKeepsOrder(cfg, s, t);
    NewJobShut(s, t, req);
    SameJobsCold(cfg, s, t);
  }

  lemma NewJobShut(s: State, t: State, req: Request)
    requires ShutSane(s) && t == s.(jobs := s.jobs + [NewJob(req)])
    ensures ShutSane(t)
  {
    forall c | 0 <= c < |t.jobs| ensures JobLateness(t, c) { if c < |s.jobs| { assert JobLateness(s, c); } }
  }

  lemma CallerStepFull(cfg: Config, s: State, c: JobId, a: CallerAction)
    requires WfConfig(cfg) && FullInv(cfg, s) && Enabled(cfg, s, OfCaller(c, a))
    ensures FullInv(cfg, Apply(cfg, s, OfCaller(c, a)))
  {
    var t := CallerApply(cfg, s, c, a);
    StepInv(cfg, s, OfCaller(c, a));
    CallerStepFrame(cfg, s, c, a);
    KeptProcesses(s, t);
    CallerStepBusy(cfg, s, c, a);
    CallerStepHits(cfg, s, c, a);
    CallerStepOrder(cfg, s, c, a);
    CallerStepShut(cfg, s, c, a);
    SameJobsCold(cfg, s, t);
  }

  lemma CallerStepBusy(cfg: Config, s: State, c: JobId, a: CallerAction)
    requires BusyCounted(s) && c < |s.jobs| && CallerEnabled(cfg, s, c, a)
    ensures BusyCounted(CallerApply(cfg, s, c, a))
  {
    CallerStepFrame(cfg, s, c, a);
    if a.Meet? { SumUpdate(s.slots, a.slot, s.slots[a.slot].(phase := Taken(c)), Busy); }
  }

  lemma CallerStepFrame(cfg: Config, s: State, c: JobId, a: CallerAction)
    requires c < |s.jobs| && CallerEnabled(cfg, s, c, a)
    ensures var t := CallerApply(cfg, s, c, a);
            && t.waits == s.waits && t.hist.owner == s.hist.owner && t.hist.ready == s.hist.ready
            && t.hist.coldOf == s.hist.coldOf && t.busy == s.busy && t.shut == s.shut
            && |t.jobs| == |s.jobs|
            && (forall x :: 0 <= x < |s.jobs| ==>
                  t.jobs[x].answer == s.jobs[x].answer && t.jobs[x].servedBy == s.jobs[x].servedBy)
            && (if a.Meet? then t.slots == s.slots[a.slot := s.slots[a.slot].(phase := Taken(c))]
                else t.slots == s.slots)
  {
    var t := CallerApply(cfg, s, c, a);
    assert t.jobs == s.jobs[c := t.jobs[c]];
  }

  lemma SlotStepFull(cfg: Config, s: State, i: nat, a: SlotAction)
    requires WfConfig(cfg) && FullInv(cfg, s) && Enabled(cfg, s, OfSlot(i, a))
    ensures FullInv(cfg, Apply(cfg, s, OfSlot(i, a)))
  {
    StepInv(cfg, s, OfSlot(i, a));
    SlotStepProcesses(cfg, s, i, a);
    SlotStepBusy(cfg, s, i, a);
    SlotStepHits(cfg, s, i, a);
    SlotStepOrder(cfg, s, i, a);
    SlotStepShut(cfg, s, i, a);
    SlotStepCold(cfg, s, i, a);
  }

  lemma ProcessStepFull(cfg: Config, s: State, i: nat, a: ProcessAction)
    requires WfConfig(cfg) && FullInv(cfg, s) && Enabled(cfg, s, OfProcess(i, a))
    ensures FullInv(cfg, Apply(cfg, s, OfProcess(i, a)))
  {
    var t := ProcessStep(cfg, s, i, a);
    StepInv(cfg, s, OfProcess(i, a));
    ProcessStepFrame(cfg, s, i, a);
    KeptProcesses(s, t);
    SumUpdate(s.slots, i, t.slots[i], Busy);
    AdvanceKeepsOrder(cfg, s, t);
    ProcessStepShut(s, t, i);
    ProcessStepCold(cfg, s, i, a);
  }

  lemma ProcessStepFrame(cfg: Config, s: State, i: nat, a: ProcessAction)
    requires Enabled(cfg, s, OfProcess(i, a))
    ensures var t := ProcessStep(cfg, s, i, a);
            && t.slots == s.slots[i := t.slots[i]] && t.slots[i].phase == s.slots[i].phase
            && PidOf(t.slots[i]) == PidOf(s.slots[i])
            && t.jobs == s.jobs && t.bufs == s.bufs && t.shut == s.shut && t.waits == s.waits
            && t.busy == s.busy && t.hits == s.hits && t.spills == s.spills
            && t.hist.owner == s.hist.owner && t.hist.jobsAtCancel == s.hist.jobsAtCancel
            && t.hist.sent == s.hist.sent && t.hist.taken == s.hist.taken
  {
  }

  lemma ProcessStepShut(s: State, t: State, i: nat)
    requires ShutSane(s) && i < |s.slots| == |t.slots| && t.slots == s.slots[i := t.slots[i]]
    requires t.slots[i].phase == s.slots[i].phase
    requires t.jobs == s.jobs && t.shut == s.shut && t.hist.jobsAtCancel == s.hist.jobsAtCancel
    ensures ShutSane(t)
  {
    forall c | 0 <= c < |t.jobs| ensures JobLateness(t, c) { assert JobLateness(s, c); }
  }

  lemma ShutStepFull(cfg: Config, s: State, a: ShutAction)
    requires WfConfig(cfg) && FullInv(cfg, s) && Enabled(cfg, s, OfShutdown(a))
    ensures FullInv(cfg, Apply(cfg, s, OfShutdown(a)))
  {
    var t := ShutApply(s, a);
    StepInv(cfg, s, OfShutdown(a));
    KeptProcesses(s, t);
    ShutStepHits(s, a);
    ShutStepOrder(cfg, s, a);
    ShutStepShut(cfg, s, a);
    SameJobsCold(cfg, s, t);
  }

  lemma StepFull(cfg: Config, s: State, a: Action)
    requires WfConfig(cfg) && FullInv(cfg, s) && Enabled(cfg, s, a)
    ensures FullInv(cfg, Apply(cfg, s, a))
  {
    match a
    case NewCall(req) => NewCallFull(cfg, s, req);
    case OfCaller(c, call) => CallerStepFull(cfg, s, c, call);
    case OfSlot(i, step) => SlotStepFull(cfg, s, i, step);
    case OfProcess(i, proc) => ProcessStepFull(cfg, s, i, proc);
    case OfShutdown(shut) => ShutStepFull(cfg, s, shut);
  }

  lemma {:induction false} RunFull(cfg: Config, states: seq<State>, actions: seq<Action>, n: nat)
    requires WfConfig(cfg) && IsRun(cfg, states, actions) && n < |states|
    ensures FullInv(cfg, states[n])
  {
    if n == 0 {
      InitFull(cfg);
    } else {
      RunFull(cfg, states, actions, n - 1);
      StepFull(cfg, states[n - 1], actions[n - 1]);
    }
  }

  lemma ReachableFull(cfg: Config, s: State)
    requires WfConfig(cfg) && Reachable(cfg, s)
    ensures FullInv(cfg, s)
  {
    var states, actions :| IsRun(cfg, states, actions) && states[|states| - 1] == s;
    RunFull(cfg, states, actions, |states| - 1);
  }
}
