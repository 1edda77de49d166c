/** Which settings a worker gets. A call is given the settings struct its handler got;
    the struct is read again when the request is marshalled for the worker. So a call's
    result is one under the settings its struct showed at that time. */
module SettingsSent {
  import opened PoolInvariant
  import opened PoolLedger
  import opened PoolMachine
  import opened PoolOutcomes
  import opened PoolRuns
  import opened Protocol
  import D = SettingsDecoding
  import S = SettingsRuns
  import opened SettingsValues
  import opened Wrappers

  /** Struct c of those held has been marshalled, and is what this request carries. */
  predicate SentAs(held: seq<S.Held>, c: JobId, written: Option<Request>) {
    && c < |held| && held[c].sent.Some? && written.Some?
    && held[c].sent.value.settings == written.value.config
  }

  predicate SlotConfig(held: seq<S.Held>, slot: Slot) {
    slot.phase.Reading? || HasResult(slot.phase) ==> SentAs(held, slot.phase.job, WrittenBy(slot.worker))
  }

  predicate JobConfig(held: seq<S.Held>, c: JobId, job: Job) {
    && c < |held| && held[c].got == job.req.config
    && (job.answer.Some? && job.answer.value.Ok? ==> SentAs(held, c, job.written))
  }

  predicate ConfigsSane(s: State, held: seq<S.Held>) {
    && |held| == |s.jobs|
    && (forall i :: 0 <= i < |s.slots| ==> SlotConfig(held, s.slots[i]))
    && (forall c :: 0 <= c < |s.jobs| ==> JobConfig(held, c, s.jobs[c]))
  }

  /** Structs may be marshalled or overwritten, but those already sent by others stay. */
  predicate Keeps(held: seq<S.Held>, more: seq<S.Held>, c: JobId) {
    c < |held| <= |more| && more[c].got == held[c].got && more[c].sent == held[c].sent
  }

  lemma KeptConfigs(s: State, held: seq<S.Held>, more: seq<S.Held>)
    requires ConfigsSane(s, held) && |more| == |held|
    requires forall c :: 0 <= c < |held| ==> Keeps(held, more, c)
    ensures ConfigsSane(s, more)
  {
    forall i | 0 <= i < |s.slots| ensures SlotConfig(more, s.slots[i]) {
      KeptSlotConfig(held, more, s.slots[i]);
    }
    forall c | 0 <= c < |s.jobs| ensures JobConfig(more, c, s.jobs[c]) {
      assert JobConfig(held, c, s.jobs[c]) && Keeps(held, more, c);
    }
  }

  lemma KeptSlotConfig(held: seq<S.Held>, more: seq<S.Held>, slot: Slot)
    requires SlotConfig(held, slot)
    requires forall c :: 0 <= c < |held| && Holds(slot.phase) == Some(c) ==> Keeps(held, more, c)
    ensures SlotConfig(more, slot)
  {
    if slot.phase.Reading? || HasResult(slot.phase) { assert Keeps(held, more, slot.phase.job); }
  }

  lemma NewCallConfigs(cfg: Config, s: State, held: seq<S.Held>, req: Request, h: S.Held)
    requires FullInv(cfg, s) && ConfigsSane(s, held) && h.got == req.config
    ensures ConfigsSane(Apply(cfg, s, NewCall(req)), held + [h])
  {
    var t := Apply(cfg, s, NewCall(req));
    forall i | 0 <= i < |t.slots| ensures SlotConfig(held + [h], t.slots[i]) { assert SlotConfig(held, s.slots[i]); }
    forall c | 0 <= c < |t.jobs| ensures JobConfig(held + [h], c, t.jobs[c]) {
      if c < |s.jobs| { assert JobConfig(held, c, s.jobs[c]); }
    }
  }

  lemma CallerConfigs(cfg: Config, s: State, held: seq<S.Held>, c: JobId, a: CallerAction)
    requires ConfigsSane(s, held) && c < |s.jobs| && CallerEnabled(cfg, s, c, a)
    ensures ConfigsSane(CallerApply(cfg, s, c, a), held)
  {
    var t := CallerApply(cfg, s, c, a);
    CallerStepFrame(cfg, s, c, a);
    forall i | 0 <= i < |t.slots| ensures SlotConfig(held, t.slots[i]) { assert SlotConfig(held, s.slots[i]); }
    forall d | 0 <= d < |t.jobs| ensures JobConfig(held, d, t.jobs[d]) { assert JobConfig(held, d, s.jobs[d]); }
  }

  /** A slot's own steps, other than the write, keep what it has written. */
  lemma SlotKeepsConfig(cfg: Config, s: State, held: seq<S.Held>, i: nat, a: SlotAction)
    requires i < |s.slots| && SlotEnabled(s, i, a) && !a.WriteOk? && SlotConfig(held, s.slots[i])
    requires SlotSane(cfg, Cancelled(s), s.jobs, s.slots[i])
    ensures SlotConfig(held, SlotApply(cfg, s, i, a).slots[i])
  {
    if SpawnStep(a) { SpawnHasNoResult(cfg, s, i, a); }
  }

  /** spawn is only ever called for want of a worker: it owes no result. */
  lemma SpawnHasNoResult(cfg: Config, s: State, i: nat, a: SlotAction)
    requires i < |s.slots| && SlotEnabled(s, i, a) && SpawnStep(a)
    requires SlotSane(cfg, Cancelled(s), s.jobs, s.slots[i])
    ensures var t := SlotApply(cfg, s, i, a);
            !t.slots[i].phase.Reading? && !HasResult(t.slots[i].phase)
  {
  }

  lemma SlotConfigs(cfg: Config, s: State, held: seq<S.Held>, i: nat, a: SlotAction)
    requires FullInv(cfg, s) && ConfigsSane(s, held) && i < |s.slots| && SlotEnabled(s, i, a) && !a.WriteOk?
    ensures ConfigsSane(SlotApply(cfg, s, i, a), held)
  {
    var t := SlotApply(cfg, s, i, a);
    assert SlotConfig(held, s.slots[i]) && SlotPlaced(s, i);
    assert SlotSane(cfg, Cancelled(s), s.jobs, s.slots[i]);
    SlotStepFrame(cfg, s, i, a);
    SlotKeepsConfig(cfg, s, held, i, a);
    forall k | 0 <= k < |t.slots| ensures SlotConfig(held, t.slots[k]) { assert SlotConfig(held, s.slots[k]); }
    forall c | 0 <= c < |t.jobs| ensures JobConfig(held, c, t.jobs[c]) {
      assert JobConfig(held, c, s.jobs[c]);
      SlotAnswers(cfg, s, i, a, c);
    }
  }

  /** A slot answers its own job, with what it has written. */
  lemma SlotAnswers(cfg: Config, s: State, i: nat, a: SlotAction, c: JobId)
    requires i < |s.slots| && SlotEnabled(s, i, a) && c < |s.jobs|
    ensures var t := SlotApply(cfg, s, i, a);
            && c < |t.jobs| && t.jobs[c].req == s.jobs[c].req
            && if a.SendReply? && s.slots[i].phase.job == c
               then t.jobs[c].answer == Some(s.slots[i].phase.out) && t.jobs[c].written == WrittenBy(s.slots[i].worker)
               else if a.SendUnavailable? && s.slots[i].phase.job == c
               then t.jobs[c].answer == Some(Failed(WorkerUnavailable))
               else t.jobs[c].answer == s.jobs[c].answer && t.jobs[c].written == s.jobs[c].written
  {
    var t := SlotApply(cfg, s, i, a);
    if !MovesJob(a) {
      SlotStepLocal(cfg, s, i, a);
    } else {
      var d := if a.TakeBuffered? then s.bufs[i][0] else s.slots[i].phase.job;
      assert t.jobs == s.jobs[d := t.jobs[d]];
    }
  }

  lemma ProcessConfigs(cfg: Config, s: State, held: seq<S.Held>, i: nat, a: ProcessAction)
    requires ConfigsSane(s, held) && Enabled(cfg, s, OfProcess(i, a))
    ensures ConfigsSane(Apply(cfg, s, OfProcess(i, a)), held)
  {
    var t := ProcessStep(cfg, s, i, a);
    ProcessKeepsWritten(cfg, s.slots[i].worker.value, a);
    ProcessStepFrame(cfg, s, i, a);
    forall k | 0 <= k < |t.slots| ensures SlotConfig(held, t.slots[k]) { assert SlotConfig(held, s.slots[k]); }
    forall c | 0 <= c < |t.jobs| ensures JobConfig(held, c, t.jobs[c]) { assert JobConfig(held, c, s.jobs[c]); }
  }

  lemma ShutConfigs(cfg: Config, s: State, held: seq<S.Held>, a: ShutAction)
    requires ConfigsSane(s, held) && ShutEnabled(s, a)
    ensures ConfigsSane(ShutApply(s, a), held)
  {
    var t := ShutApply(s, a);
    forall k | 0 <= k < |t.slots| ensures SlotConfig(held, t.slots[k]) { assert SlotConfig(held, s.slots[k]); }
    forall c | 0 <= c < |t.jobs| ensures JobConfig(held, c, t.jobs[c]) { assert JobConfig(held, c, s.jobs[c]); }
  }

  lemma PoolConfigs(cfg: Config, s: State, held: seq<S.Held>, a: Action)
    requires FullInv(cfg, s) && ConfigsSane(s, held) && Enabled(cfg, s, a)
    requires !a.NewCall? && !(a.OfSlot? && a.step.WriteOk?)
    ensures ConfigsSane(Apply(cfg, s, a), held)
  {
    match a
    case OfCaller(c, call) => CallerConfigs(cfg, s, held, c, call);
    case OfSlot(i, step) => SlotConfigs(cfg, s, held, i, step);
    case OfProcess(i, proc) => ProcessConfigs(cfg, s, held, i, proc);
    case OfShutdown(shut) => ShutConfigs(cfg, s, held, shut);
  }

  /** The write sends what the job's struct shows; no other request has that job. */
  lemma WriteConfigs(
    cfg: Config, s: State, held: seq<S.Held>, more: seq<S.Held>, i: nat, c: JobId, config: Settings)
    requires FullInv(cfg, s) && ConfigsSane(s, held) && Enabled(cfg, s, OfSlot(i, WriteOk(config)))
    requires s.slots[i].phase == Calling(c) && c < |held| == |more|
    requires forall d :: 0 <= d < |held| && d != c ==> Keeps(held, more, d)
    requires more[c].got == held[c].got && more[c].sent.Some? && more[c].sent.value.settings == config
    ensures ConfigsSane(Apply(cfg, s, OfSlot(i, WriteOk(config))), more)
  {
    var t := SlotApply(cfg, s, i, WriteOk(config));
    assert SlotPlaced(s, i) && JobSane(cfg, s.jobs[c]);
    forall k | 0 <= k < |t.slots| ensures SlotConfig(more, t.slots[k]) {
      assert SlotConfig(held, s.slots[k]) && SlotPlaced(s, k);
      if k != i { KeptSlotConfig(held, more, s.slots[k]); }
    }
    forall d | 0 <= d < |t.jobs| ensures JobConfig(more, d, t.jobs[d]) {
      assert JobConfig(held, d, s.jobs[d]) && JobSane(cfg, s.jobs[d]);
      if d != c { assert Keeps(held, more, d); }
    }
  }

  /** So does it when the store marshals that struct for it. */
  lemma MarshalConfigs(cfg: Config, s: State, path: string, store: S.State, i: nat, c: JobId)
    requires FullInv(cfg, s) && ConfigsSane(s, store.held) && c < |store.held| && i < |s.slots|
    requires s.slots[i].phase == Calling(c) && Enabled(cfg, s, OfSlot(i, WriteOk(store.held[c].now)))
    ensures ConfigsSane(Apply(cfg, s, OfSlot(i, WriteOk(store.held[c].now))), S.Apply(path, store, S.Marshal(c)).held)
  {
    WriteConfigs(cfg, s, store.held, S.Apply(path, store, S.Marshal(c)).held, i, c, store.held[c].now);
  }

  /** What a request being read was written with. */
  predicate WrittenAs(s: State, store: S.State, i: nat)
    requires i < |s.slots| && s.slots[i].phase.Reading?
  {
    var c := s.slots[i].phase.job;
    && c < |s.jobs| && c < |store.held| && store.held[c].sent.Some? && WrittenBy(s.slots[i].worker).Some?
    && var req, written := s.jobs[c].req, WrittenBy(s.slots[i].worker).value;
    && written == req.(config := written.config)
    && written.config == D.OverwrittenSince(req.config, store.held[c].sent.value.met)
  }

  lemma WrittenIsSent(cfg: Config, s: State, store: S.State, i: nat)
    requires i < |s.slots| && s.slots[i].phase.Reading? && SlotConfig(store.held, s.slots[i])
    requires SlotSane(cfg, Cancelled(s), s.jobs, s.slots[i])
    requires var c := s.slots[i].phase.job; c < |s.jobs| && JobConfig(store.held, c, s.jobs[c])
    requires S.HeldSane(store, store.held[s.slots[i].phase.job])
    ensures WrittenAs(s, store, i)
  {
  }
}
