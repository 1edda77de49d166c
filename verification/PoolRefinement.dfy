/** The whole pool is, to its callers, a server that answers each accepted job once
    and answers it with a result for its own request. */
module PoolRefinement {
  import opened PoolInvariant
  import opened PoolLedger
  import opened PoolMachine
  import opened PoolRuns
  import opened Protocol
  import opened SettingsValues
  import opened Sums
  import opened Wrappers

  // ---------- The simple server ----------

  datatype Status = Open | Pending | Settled(out: Outcome)

  datatype Ticket = Ticket(req: Request, status: Status)

  /** A job is settled under settings of its own: those in force when its request was
      written. */
  datatype ServerEvent =
    | Stutter
    | Arrive(req: Request)
    | Admit(c: JobId)
    | Settle(who: JobId, out: Outcome, config: Settings)

  ghost predicate ServerStep(good: (Request, Result) -> bool, a: seq<Ticket>, e: ServerEvent, b: seq<Ticket>) {
    match e
    case Stutter => b == a
    case Arrive(req) => b == a + [Ticket(req, Open)]
    case Admit(c) => c < |a| && a[c].status.Open? && b == a[c := a[c].(status := Pending)]
    case Settle(c, out, config) =>
      && c < |a| && a[c].status.Pending?
      && (out.Ok? ==> good(a[c].req.(config := config), out.result))
      && b == a[c := a[c].(status := Settled(out))]
  }

  // ---------- The simulation ----------

  ghost function JobStatus(job: Job): Status {
    match job.loc
    case Unsent => Open
    case Answered => if job.answer.Some? then Settled(job.answer.value) else Pending
    case _ => Pending
  }

  ghost function Tickets(s: State): seq<Ticket> {
    seq(|s.jobs|, c requires 0 <= c < |s.jobs| => Ticket(s.jobs[c].req, JobStatus(s.jobs[c])))
  }

  function ConfigWritten(worker: Option<Worker>): Settings {
    if WrittenBy(worker).Some? then WrittenBy(worker).value.config else DEFAULTS
  }

  ghost function EventOf(cfg: Config, s: State, a: Action): ServerEvent
    requires Enabled(cfg, s, a)
  {
    match a
    case NewCall(req) => Arrive(req)
    case OfCaller(c, call) =>
      if call.Meet? || (call.SendAffinity? && |s.bufs[cfg.route(s.jobs[c].req.key)]| < 1)
      then Admit(c) else Stutter
    case OfSlot(i, step) =>
      if step.SendReply? then Settle(s.slots[i].phase.job, s.slots[i].phase.out, ConfigWritten(s.slots[i].worker))
      else if step.SendUnavailable? then Settle(s.slots[i].phase.job, Failed(WorkerUnavailable), DEFAULTS)
      else Stutter
    case OfProcess(_, _) => Stutter
    case OfShutdown(shut) =>
      if shut.DrainSend? then Settle(s.shut.job, Failed(PoolShuttingDown), DEFAULTS) else Stutter
  }

  lemma CallerStepRefines(cfg: Config, s: State, c: JobId, a: CallerAction)
    requires JobsSane(cfg, s) && Enabled(cfg, s, OfCaller(c, a))
    ensures ServerStep(cfg.good, Tickets(s), EventOf(cfg, s, OfCaller(c, a)),
                       Tickets(Apply(cfg, s, OfCaller(c, a))))
  {
    var t := CallerApply(cfg, s, c, a);
    assert JobSane(cfg, s.jobs[c]);
    assert t.jobs == s.jobs[c := t.jobs[c]];
    assert Tickets(t) == Tickets(s)[c := Ticket(t.jobs[c].req, JobStatus(t.jobs[c]))];
  }

  lemma ReplacedJobTickets(s: State, t: State, c: JobId)
    requires c < |s.jobs| == |t.jobs| && t.jobs == s.jobs[c := t.jobs[c]]
    ensures Tickets(t) == Tickets(s)[c := Ticket(t.jobs[c].req, JobStatus(t.jobs[c]))]
  {
  }

  lemma TakeStepRefines(cfg: Config, s: State, i: nat)
    requires Inv(cfg, s) && Enabled(cfg, s, OfSlot(i, TakeBuffered))
    ensures Tickets(Apply(cfg, s, OfSlot(i, TakeBuffered))) == Tickets(s)
  {
    assert BufferPlaced(s, i);
    ReplacedJobTickets(s, SlotApply(cfg, s, i, TakeBuffered), s.bufs[i][0]);
  }

  lemma ReplyStepRefines(cfg: Config, s: State, i: nat, a: SlotAction)
    requires Inv(cfg, s) && Enabled(cfg, s, OfSlot(i, a)) && (a.SendReply? || a.SendUnavailable?)
    ensures ServerStep(cfg.good, Tickets(s), EventOf(cfg, s, OfSlot(i, a)), Tickets(Apply(cfg, s, OfSlot(i, a))))
  {
    assert SlotPlaced(s, i) && SlotSane(cfg, Cancelled(s), s.jobs, s.slots[i]);
    ReplacedJobTickets(s, SlotApply(cfg, s, i, a), s.slots[i].phase.job);
  }

  lemma SlotStepRefines(cfg: Config, s: State, i: nat, a: SlotAction)
    requires Inv(cfg, s) && Enabled(cfg, s, OfSlot(i, a))
    ensures ServerStep(cfg.good, Tickets(s), EventOf(cfg, s, OfSlot(i, a)), Tickets(Apply(cfg, s, OfSlot(i, a))))
  {
    var t := SlotApply(cfg, s, i, a);
    if a.TakeBuffered? {
      TakeStepRefines(cfg, s, i);
    } else if MovesJob(a) {
      ReplyStepRefines(cfg, s, i, a);
    } else {
      SlotStepLocal(cfg, s, i, a);
    }
  }

  lemma ShutStepRefines(cfg: Config, s: State, a: ShutAction)
    requires Inv(cfg, s) && Enabled(cfg, s, OfShutdown(a))
    ensures ServerStep(cfg.good, Tickets(s), EventOf(cfg, s, OfShutdown(a)), Tickets(Apply(cfg, s, OfShutdown(a))))
  {
    var t := ShutApply(s, a);
    if a.DrainTake? || a.DrainSend? {
      if a.DrainTake? { assert BufferPlaced(s, s.shut.k); }
      ReplacedJobTickets(s, t, if a.DrainTake? then s.bufs[s.shut.k][0] else s.shut.job);
    }
  }

  /** Every step of the pool is a step of the simple server. */
  lemma StepRefines(cfg: Config, s: State, a: Action)
    requires FullInv(cfg, s) && Enabled(cfg, s, a)
    ensures ServerStep(cfg.good, Tickets(s), EventOf(cfg, s, a), Tickets(Apply(cfg, s, a)))
  {
    match a
    case NewCall(req) =>
      assert Tickets(Apply(cfg, s, a)) == Tickets(s) + [Ticket(req, Open)];
    case OfCaller(c, call) => CallerStepRefines(cfg, s, c, call);
    case OfSlot(i, step) => SlotStepRefines(cfg, s, i, step);
    case OfProcess(i, proc) => assert Tickets(Apply(cfg, s, a)) == Tickets(s);
    case OfShutdown(shut) => ShutStepRefines(cfg, s, shut);
  }

  /** Hence every run of the pool is a run of the simple server. */
  lemma RunRefines(cfg: Config, states: seq<State>, actions: seq<Action>)
    requires WfConfig(cfg) && IsRun(cfg, states, actions)
    ensures Tickets(states[0]) == []
    ensures forall n :: 0 <= n < |actions| ==>
              ServerStep(cfg.good, Tickets(states[n]), EventOf(cfg, states[n], actions[n]), Tickets(states[n + 1]))
  {
    forall n | 0 <= n < |actions|
      ensures ServerStep(cfg.good, Tickets(states[n]), EventOf(cfg, states[n], actions[n]), Tickets(states[n + 1]))
    {
      RunFull(cfg, states, actions, n);
      StepRefines(cfg, states[n], actions[n]);
    }
  }

  // ---------- What callers get from it ----------

  /** The simple server never takes an answer back or gives another. */
  lemma SettledStays(good: (Request, Result) -> bool, a: seq<Ticket>, e: ServerEvent, b: seq<Ticket>, c: JobId)
    requires ServerStep(good, a, e, b) && c < |a| && a[c].status.Settled?
    ensures c < |b| && b[c] == a[c]
  {
  }

  lemma {:induction false} TicketStays(cfg: Config, states: seq<State>, actions: seq<Action>, m: nat, n: nat, c: JobId)
    requires WfConfig(cfg) && IsRun(cfg, states, actions) && m <= n < |states|
    requires c < |states[m].jobs| && Tickets(states[m])[c].status.Settled?
    ensures c < |states[n].jobs| && Tickets(states[n])[c] == Tickets(states[m])[c]
  {
    if m < n {
      TicketStays(cfg, states, actions, m, n - 1, c);
      var s, a := states[n - 1], actions[n - 1];
      RunFull(cfg, states, actions, n - 1);
      StepRefines(cfg, s, a);
      SettledStays(cfg.good, Tickets(s), EventOf(cfg, s, a), Tickets(Apply(cfg, s, a)), c);
      assert states[n - 1 + 1] == Apply(cfg, s, a);
    }
  }

  /** An answer, once given, is the answer in every later state of the run. */
  lemma AnsweredOnce(cfg: Config, states: seq<State>, actions: seq<Action>, m: nat, n: nat, c: JobId)
    requires WfConfig(cfg) && IsRun(cfg, states, actions) && m <= n < |states|
    requires c < |states[m].jobs| && states[m].jobs[c].sends >= 1
    ensures c < |states[n].jobs| && states[n].jobs[c].sends == 1
    ensures states[n].jobs[c].answer == states[m].jobs[c].answer
  {
    RunFull(cfg, states, actions, m);
    RunFull(cfg, states, actions, n);
    assert JobSane(cfg, states[m].jobs[c]);
    TicketStays(cfg, states, actions, m, n, c);
    assert JobSane(cfg, states[n].jobs[c]);
  }

  /** No cross-talk: a result returned by Compress is one for that call's request as
      it was written (its messages, model and key, under the settings then in force),
      and is the one reply ever sent to it. */
  lemma CompressReturnsOwnResult(cfg: Config, s: State, c: JobId)
    requires WfConfig(cfg) && Reachable(cfg, s) && c < |s.jobs|
    requires s.jobs[c].pc.Returned? && s.jobs[c].pc.result.Ok?
    ensures s.jobs[c].written.Some? && Carries(s.jobs[c].written.value, s.jobs[c].req)
    ensures cfg.good(s.jobs[c].written.value, s.jobs[c].pc.result.result)
    ensures s.jobs[c].answer == Some(s.jobs[c].pc.result) && s.jobs[c].sends == 1
  {
    ReachableFull(cfg, s);
    assert JobSane(cfg, s.jobs[c]);
  }

  /** Whoever is about to send on a job's reply channel finds it empty. */
  lemma ReplyNeverBlocks(cfg: Config, s: State, c: JobId)
    requires WfConfig(cfg) && Reachable(cfg, s)
    requires (exists i :: 0 <= i < |s.slots| && (s.slots[i].phase.Reply? || s.slots[i].phase.Unavailable?)
                          && Holds(s.slots[i].phase) == Some(c))
             || (s.shut.DrainReply? && s.shut.job == c)
    ensures c < |s.jobs| && s.jobs[c].resp == [] && s.jobs[c].sends == 0
  {
    ReachableFull(cfg, s);
    if i :| 0 <= i < |s.slots| && (s.slots[i].phase.Reply? || s.slots[i].phase.Unavailable?)
            && Holds(s.slots[i].phase) == Some(c) {
      assert SlotPlaced(s, i);
    }
    assert JobSane(cfg, s.jobs[c]);
  }

  /** Between calls a live worker has nothing in flight: no reader is outstanding,
      and against the worker.py loop both pipes are empty and every request written
      has been taken by the process. */
  lemma IdleWorkerIsQuiet(cfg: Config, s: State, i: nat)
    requires WfConfig(cfg) && Reachable(cfg, s) && i < |s.slots|
    requires s.slots[i].phase.Idle? && s.slots[i].worker.Some?
    ensures var w := s.slots[i].worker.value;
            && w.reader.NoReader?
            && |w.seen| + |w.stdin| == w.nextId
            && (cfg.strict ==> w.stdin == [] && w.stdout == [] && w.current.None? && |w.seen| == w.nextId)
  {
    ReachableFull(cfg, s);
    assert SlotSane(cfg, Cancelled(s), s.jobs, s.slots[i]);
  }

  /** A line that is not an ok reply with the id of the outstanding request is never
      delivered: the job fails and the worker is killed before the slot goes on. */
  lemma WrongLineRecycles(cfg: Config, s: State, i: nat, line: Line) returns (t1: State, t2: State, t3: State)
    requires WfConfig(cfg) && Reachable(cfg, s) && i < |s.slots|
    requires Enabled(cfg, s, OfSlot(i, ReadGot)) && s.slots[i].worker.value.reader == Got(Some(line))
    requires !line.OkLine? || line.id != s.slots[i].worker.value.nextId
    ensures Step(cfg, s, OfSlot(i, ReadGot), t1)
    ensures Step(cfg, t1, OfSlot(i, EndCall), t2)
    ensures Step(cfg, t2, OfSlot(i, KillWorker), t3)
    ensures var c := s.slots[i].phase.job;
            var pid := s.slots[i].worker.value.pid;
            && i < |t3.slots| && t3.slots[i] == Slot(Spawning(ForReply(c, Failed(WorkerFailed))), None)
            && pid < |t3.waits| && t3.waits[pid] == 1
            && t3.jobs == s.jobs
  {
    UnreapedWorker(cfg, s, i);
    t1 := LineRefused(cfg, s, i, line);
    t2, t3 := FailedCallRecycles(cfg, t1, i);
  }

  lemma UnreapedWorker(cfg: Config, s: State, i: nat)
    requires WfConfig(cfg) && Reachable(cfg, s) && i < |s.slots| && s.slots[i].worker.Some?
    ensures s.slots[i].worker.value.pid < |s.waits| && s.waits[s.slots[i].worker.value.pid] == 0
  {
    ReachableFull(cfg, s);
    assert WorkerOwned(s, i);
  }

  lemma LineRefused(cfg: Config, s: State, i: nat, line: Line) returns (t: State)
    requires Enabled(cfg, s, OfSlot(i, ReadGot)) && s.slots[i].worker.value.reader == Got(Some(line))
    requires !line.OkLine? || line.id != s.slots[i].worker.value.nextId
    ensures Step(cfg, s, OfSlot(i, ReadGot), t)
    ensures t.jobs == s.jobs && t.waits == s.waits && |t.slots| == |s.slots|
    ensures t.slots[i].phase == Done(s.slots[i].phase.job, Failed(WorkerFailed))
    ensures PidOf(t.slots[i]) == PidOf(s.slots[i])
  {
    t := Apply(cfg, s, OfSlot(i, ReadGot));
  }

  // ---------- Occupancy ----------

  predicate InPool(job: Job) {
    job.loc.Buffered? || job.loc.InSlot? || job.loc.InDrain?
  }

  ghost function InPoolJobs(s: State): set<JobId> {
    set c: nat | c < |s.jobs| && InPool(s.jobs[c])
  }

  /** The place of a job: its buffer, its slot, or (once the slots are gone) the
      drain, which stands in slot 0's place. */
  ghost function PlaceOf(s: State, size: nat, c: JobId): nat {
    if c < |s.jobs| then
      match s.jobs[c].loc
      case Buffered(k) => k
      case InSlot(i) => size + i
      case _ => size
    else 0
  }

  lemma PlacesDistinct(cfg: Config, s: State, c: JobId, d: JobId)
    requires WfConfig(cfg) && FullInv(cfg, s) && c in InPoolJobs(s) && d in InPoolJobs(s)
    ensures PlaceOf(s, cfg.size, c) < 2 * cfg.size
    ensures PlaceOf(s, cfg.size, c) == PlaceOf(s, cfg.size, d) ==> c == d
  {
    assert JobPlaced(s, c) && JobPlaced(s, d);
  }

  /** At most one job queued and one held per slot, and the busy gauge counts
      exactly the slots inside a worker call. */
  lemma BoundedOccupancy(cfg: Config, s: State)
    requires WfConfig(cfg) && Reachable(cfg, s)
    ensures |InPoolJobs(s)| <= 2 * cfg.size
    ensures s.busy == Sum(s.slots, Busy) && 0 <= s.busy <= cfg.size
  {
    ReachableFull(cfg, s);
    SumBound(s.slots, Busy, 1);
    var place := c => PlaceOf(s, cfg.size, c);
    forall c, d | c in InPoolJobs(s) && d in InPoolJobs(s)
      ensures place(c) in Below(2 * cfg.size) && (place(c) == place(d) ==> c == d)
    {
      PlacesDistinct(cfg, s, c, d);
    }
    InjectiveInto(InPoolJobs(s), place, Below(2 * cfg.size));
  }

  // ---------- Counters, order, processes ----------

  /** How an accepted job was handed over: on the shared channel without being counted
      exactly when affinity is off or it has no key. */
  lemma RoutedByKey(cfg: Config, s: State, c: JobId)
    requires WfConfig(cfg) && Reachable(cfg, s) && c < |s.jobs| && !s.jobs[c].loc.Unsent?
    ensures s.jobs[c].route.ByShared? <==> !cfg.affinityEnabled || s.jobs[c].req.key == ""
    ensures s.jobs[c].route.ByAffinity? || s.jobs[c].route.BySpill? <==> cfg.affinityEnabled && s.jobs[c].req.key != ""
  {
    ReachableFull(cfg, s);
    assert JobSane(cfg, s.jobs[c]);
  }

  ghost function AcceptedKeyed(job: Job): nat { if !job.loc.Unsent? && job.req.key != "" then 1 else 0 }

  /** hits and spills are exact up to the callers that have sent and not yet counted;
      together they are the accepted calls with a key, or zero when affinity is off. */
  lemma CountersConserved(cfg: Config, s: State)
    requires WfConfig(cfg) && Reachable(cfg, s)
    ensures s.hits + Sum(s.jobs, AtHit) == Sum(s.jobs, SentByAffinity)
    ensures s.spills + Sum(s.jobs, AtSpill) == Sum(s.jobs, SentBySpill)
    ensures !cfg.affinityEnabled ==> s.hits == 0 && s.spills == 0
    ensures cfg.affinityEnabled ==>
              s.hits + s.spills + Sum(s.jobs, AtHit) + Sum(s.jobs, AtSpill) == Sum(s.jobs, AcceptedKeyed)
    ensures forall c :: 0 <= c < |s.jobs| && s.jobs[c].loc.Unsent? ==>
              SentByAffinity(s.jobs[c]) == 0 && SentBySpill(s.jobs[c]) == 0
  {
    ReachableFull(cfg, s);
    forall c | 0 <= c < |s.jobs| ensures JobSane(cfg, s.jobs[c]) {}
    if !cfg.affinityEnabled {
      SumZero(s.jobs, SentByAffinity);
      SumZero(s.jobs, SentBySpill);
      SumZero(s.jobs, AtHit);
      SumZero(s.jobs, AtSpill);
    } else {
      SumSplit(s.jobs, AcceptedKeyed, SentByAffinity, SentBySpill);
    }
  }

  lemma BecomesOffering(cfg: Config, s: State, a: Action, c: JobId)
    requires Enabled(cfg, s, a) && c < |Apply(cfg, s, a).jobs| && Apply(cfg, s, a).jobs[c].pc.Offering?
    requires cfg.affinityEnabled && Apply(cfg, s, a).jobs[c].req.key != ""
    ensures c < |s.jobs| && s.jobs[c].req == Apply(cfg, s, a).jobs[c].req
    ensures s.jobs[c].pc.Offering?
            || (a == OfCaller(c, SendAffinity) && cfg.route(s.jobs[c].req.key) < |s.bufs|
                && s.bufs[cfg.route(s.jobs[c].req.key)] != [])
  {
    match a
    case NewCall(_) =>
    case OfCaller(_, _) =>
    case OfSlot(i, step) => SlotStepKeepsPcs(cfg, s, i, step);
    case OfProcess(_, _) =>
    case OfShutdown(_) =>
  }

  lemma SlotStepKeepsPcs(cfg: Config, s: State, i: nat, a: SlotAction)
    requires i < |s.slots| && SlotEnabled(s, i, a)
    ensures var t := SlotApply(cfg, s, i, a);
            && |t.jobs| == |s.jobs|
            && forall c :: 0 <= c < |s.jobs| ==> t.jobs[c].req == s.jobs[c].req && t.jobs[c].pc == s.jobs[c].pc
  {
    SlotStepFrame(cfg, s, i, a);
    if MovesJob(a) {
      var t := SlotApply(cfg, s, i, a);
      var c := if a.TakeBuffered? then s.bufs[i][0] else s.slots[i].phase.job;
      assert t.jobs == s.jobs[c := t.jobs[c]];
    } else {
      SlotStepLocal(cfg, s, i, a);
    }
  }

  /** With affinity on, a call with a key is offered on the shared channel only after it
      has tried its own slot and found a job in that slot's buffer. */
  lemma {:induction false} OfferedAfterFull(cfg: Config, states: seq<State>, actions: seq<Action>, n: nat, c: JobId)
    returns (m: nat)
    requires WfConfig(cfg) && IsRun(cfg, states, actions) && n < |states|
    requires c < |states[n].jobs| && states[n].jobs[c].pc.Offering?
    requires cfg.affinityEnabled && states[n].jobs[c].req.key != ""
    ensures m < n && actions[m] == OfCaller(c, SendAffinity)
    ensures var k := cfg.route(states[n].jobs[c].req.key); k < |states[m].bufs| && states[m].bufs[k] != []
  {
    assert states[n - 1 + 1] == Apply(cfg, states[n - 1], actions[n - 1]);
    BecomesOffering(cfg, states[n - 1], actions[n - 1], c);
    if states[n - 1].jobs[c].pc.Offering? {
      m := OfferedAfterFull(cfg, states, actions, n - 1, c);
    } else {
      m := n - 1;
    }
  }

  /** Affinity-routed jobs with one key go to one slot and leave its buffer in the
      order they were sent; each is answered before the next one leaves. */
  lemma AffinityInOrder(cfg: Config, s: State, key: string)
    requires WfConfig(cfg) && Reachable(cfg, s)
    ensures var k := cfg.route(key);
            var sent := Log(s.hist.sent, k);
            var taken := Log(s.hist.taken, k);
            && taken <= sent && |sent| <= |taken| + 1
            && NoRepeats(sent)
            && (forall c :: 0 <= c < |s.jobs| && s.jobs[c].route.ByAffinity? && s.jobs[c].req.key == key ==>
                  c in sent)
            && (forall n :: 0 <= n < |sent| ==> sent[n] < |s.jobs| && s.jobs[sent[n]].route.ByAffinity?)
            && (forall n :: 0 <= n < |taken| - 1 ==> s.jobs[sent[n]].loc == Answered)
  {
    ReachableFull(cfg, s);
    var k := cfg.route(key);
    assert SlotOrder(cfg, s, k);
    forall c | 0 <= c < |s.jobs| && s.jobs[c].route.ByAffinity? && s.jobs[c].req.key == key
      ensures c in Log(s.hist.sent, k)
    {
      assert JobLogged(cfg, s, c);
    }
  }

  /** Started processes are the reaped ones plus the live ones, one live per slot at
      most; none is waited on twice; and once Shutdown has returned each has been
      waited on exactly once. */
  lemma ProcessesAccounted(cfg: Config, s: State)
    requires WfConfig(cfg) && Reachable(cfg, s)
    ensures |s.waits| == Sum(s.waits, Itself) + Sum(s.slots, Live)
    ensures forall pid :: 0 <= pid < |s.waits| ==> s.waits[pid] <= 1
    ensures forall i, j | 0 <= i < |s.slots| && 0 <= j < |s.slots| && i != j
              && s.slots[i].worker.Some? && s.slots[j].worker.Some? ::
              s.slots[i].worker.value.pid != s.slots[j].worker.value.pid
    ensures s.shut.Finished? ==> forall pid :: 0 <= pid < |s.waits| ==> s.waits[pid] == 1
  {
    ReachableFull(cfg, s);
    forall pid | 0 <= pid < |s.waits| ensures s.waits[pid] <= 1 { assert ProcessOwned(s, pid); }
    forall i, j | 0 <= i < |s.slots| && 0 <= j < |s.slots| && i != j
                  && s.slots[i].worker.Some? && s.slots[j].worker.Some?
      ensures s.slots[i].worker.value.pid != s.slots[j].worker.value.pid
    {
      assert WorkerOwned(s, i) && WorkerOwned(s, j);
    }
    if s.shut.Finished? {
      forall pid | 0 <= pid < |s.waits| ensures s.waits[pid] == 1 {
        assert ProcessOwned(s, pid);
        var i := s.hist.owner[pid];
        assert SlotSane(cfg, Cancelled(s), s.jobs, s.slots[i]);
      }
    }
  }

  // ---------- Cold results ----------

  ghost function ColdJobs(s: State): set<JobId> {
    set c: nat | c < |s.jobs| && ColdAnswer(s.jobs[c])
  }

  /** Against the worker.py loop, calls answered "cold" number at most the workers
      that got ready. */
  lemma ColdAtMostOncePerWorker(cfg: Config, s: State)
    requires WfConfig(cfg) && Reachable(cfg, s) && cfg.strict
    ensures |ColdJobs(s)| <= |s.hist.ready|
  {
    ReachableFull(cfg, s);
    var place := (c: JobId) => if c < |s.jobs| then s.jobs[c].servedBy else 0;
    forall c | c in ColdJobs(s) ensures place(c) in s.hist.ready { assert JobCold(s, c); }
    forall c, d | c in ColdJobs(s) && d in ColdJobs(s) && place(c) == place(d) ensures c == d {
      assert JobCold(s, c) && JobCold(s, d);
    }
    InjectiveInto(ColdJobs(s), place, s.hist.ready);
  }
}
