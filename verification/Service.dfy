/** The service as a whole: hook requests, the pool behind them, the settings they read
    and the counters beside them, all interleaved (handler.go, pool.go, config.go,
    metrics.go). */
module Service {
  import opened Handler
  import opened JsonValues
  import opened MetricsCounters
  import opened PoolInvariant
  import opened PoolLedger
  import P = PoolMachine
  import opened PoolOutcomes
  import opened PoolRefinement
  import opened PoolRuns
  import opened PoolShutdown
  import opened Protocol
  import D = SettingsDecoding
  import S = SettingsRuns
  import opened SettingsSent
  import opened SettingsValues
  import opened Sums
  import opened Visits
  import opened Wrappers

  /** `owner[c]` is the visit that made call c; the settings it read are the c-th
      struct held. */
  datatype World = World(pool: P.State, visits: seq<Visit>, metrics: Counters, owner: seq<nat>, store: S.State)

  datatype Setup = Setup(cfg: P.Config, keyOf: (string, seq<Json>) -> string, path: string, disk: D.Disk)

  datatype Action =
    | Enter(arrival: Arrival)
    | Reply(v: nat)                          // answered without the pool
    | Submit(v: nat)                         // reads the settings, begins its Compress call
    | PoolStep(a: P.Action)
    | StoreStep(step: S.Action)              // an update goes on
    | Return(v: nat)                         // its Compress call has returned
    | Log(v: nat, durMs: real)
    | Leave(v: nat)

  ghost function Init(setup: Setup): World {
    World(P.Init(setup.cfg), [], ZEROS, [], S.Init(setup.path, setup.disk))
  }

  /** The request gets as far as calling Compress. */
  predicate Calls(setup: Setup, arrival: Arrival, settings: Settings) {
    arrival.isPost && arrival.payload.Fine? && Prepare(arrival.payload.hook, settings, setup.keyOf).Call?
  }

  function CallOf(setup: Setup, arrival: Arrival, settings: Settings): Prepared
    requires Calls(setup, arrival, settings)
  {
    Prepare(arrival.payload.hook, settings, setup.keyOf)
  }

  predicate Writes(p: P.Action) { p.OfSlot? && p.step.WriteOk? }

  /** The settings written are what the struct the call was given shows by then. */
  predicate WritesHeld(w: World, p: P.Action)
    requires Writes(p)
  {
    && p.i < |w.pool.slots| && w.pool.slots[p.i].phase.Calling?
    && w.pool.slots[p.i].phase.job < |w.store.held|
    && p.step.config == w.store.held[w.pool.slots[p.i].phase.job].now
  }

  const NO_SUMMARY := NoResult("", "", ReasonPassthrough)

  ghost predicate Enabled(setup: Setup, w: World, a: Action) {
    match a
    case Enter(_) => true
    case Reply(v) =>
      v < |w.visits| && w.visits[v].stage.Entered? && !Calls(setup, w.visits[v].arrival, w.store.cur)
    case Submit(v) =>
      v < |w.visits| && w.visits[v].stage.Entered? && Calls(setup, w.visits[v].arrival, w.store.cur)
    case PoolStep(p) => !p.NewCall? && P.Enabled(setup.cfg, w.pool, p) && (Writes(p) ==> WritesHeld(w, p))
    case StoreStep(step) => !step.Get? && !step.Marshal? && S.Enabled(setup.path, w.store, step)
    case Return(v) =>
      && v < |w.visits| && w.visits[v].stage.AtPool? && w.visits[v].job.Some?
      && w.visits[v].job.value < |w.pool.jobs| && w.pool.jobs[w.visits[v].job.value].pc.Returned?
      && Calls(setup, w.visits[v].arrival, w.visits[v].settings)
    case Log(v, _) => v < |w.visits| && w.visits[v].stage.Answered? && w.visits[v].summary.Some?
    case Leave(v) => v < |w.visits| && w.visits[v].stage.Logged?
  }

  ghost function Apply(setup: Setup, w: World, a: Action): World
    requires Enabled(setup, w, a)
  {
    match a
    case Enter(arrival) =>
      w.(visits := w.visits + [Visit(arrival, Entered, DEFAULTS, None, None, None)], metrics := Started(w.metrics))
    case Reply(v) =>
      var visit := w.visits[v];
      var (resp, summary) := Quick(visit.arrival, w.store.cur, setup.keyOf, NO_SUMMARY);
      w.(visits := w.visits[v := visit.(
           stage := if visit.arrival.isPost then Answered else Logged, settings := w.store.cur, resp := Some(resp),
           summary := if visit.arrival.isPost then Some(summary) else None)])
    case Submit(v) =>
      var visit := w.visits[v];
      w.(visits := w.visits[v := visit.(stage := AtPool, settings := w.store.cur, job := Some(|w.pool.jobs|))],
         pool := P.Apply(setup.cfg, w.pool, P.NewCall(CallOf(setup, visit.arrival, w.store.cur).req)),
         owner := w.owner + [v],
         store := S.Apply(setup.path, w.store, S.Get))
    case PoolStep(p) =>
      w.(pool := P.Apply(setup.cfg, w.pool, p),
         store := if Writes(p) then S.Apply(setup.path, w.store, S.Marshal(w.pool.slots[p.i].phase.job)) else w.store)
    case StoreStep(step) => w.(store := S.Apply(setup.path, w.store, step))
    case Return(v) =>
      var visit := w.visits[v];
      var (resp, summary) :=
        Conclude(CallOf(setup, visit.arrival, visit.settings), w.pool.jobs[visit.job.value].pc.result);
      w.(visits := w.visits[v := visit.(stage := Answered, resp := Some(resp), summary := Some(summary))])
    case Log(v, durMs) =>
      w.(visits := w.visits[v := w.visits[v].(stage := Logged)],
         metrics := Recorded(w.metrics, w.visits[v].summary.value, durMs))
    case Leave(v) => w.(visits := w.visits[v := w.visits[v].(stage := Left)], metrics := Finished(w.metrics))
  }

  ghost predicate IsRun(setup: Setup, worlds: seq<World>, actions: seq<Action>) {
    && |worlds| == |actions| + 1
    && worlds[0] == Init(setup)
    && forall n :: 0 <= n < |actions| ==>
         Enabled(setup, worlds[n], actions[n]) && worlds[n + 1] == Apply(setup, worlds[n], actions[n])
  }

  ghost predicate Reachable(setup: Setup, w: World) {
    exists worlds, actions :: IsRun(setup, worlds, actions) && worlds[|worlds| - 1] == w
  }

  // ---------- Visits ----------

  /** A visit that went to the pool: its job is its own call, and its answer is what
      the handler makes of that call's outcome. */
  ghost predicate CallSane(setup: Setup, jobs: seq<P.Job>, owner: seq<nat>, v: nat, visit: Visit) {
    visit.job.Some? ==>
      && visit.job.value < |jobs| == |owner|
      && owner[visit.job.value] == v
      && Calls(setup, visit.arrival, visit.settings)
      && jobs[visit.job.value].req == CallOf(setup, visit.arrival, visit.settings).req
      && (visit.resp.Some? ==>
            && jobs[visit.job.value].pc.Returned? && visit.summary.Some?
            && (visit.resp.value, visit.summary.value)
               == Conclude(CallOf(setup, visit.arrival, visit.settings), jobs[visit.job.value].pc.result))
  }

  ghost predicate VisitSane(setup: Setup, visit: Visit) {
    && (visit.stage.Entered? ==> visit.job.None? && visit.resp.None?)
    && (visit.stage.AtPool? ==> visit.job.Some? && visit.resp.None?)
    && (visit.resp.None? ==> visit.summary.None?)
    && (visit.stage.Answered? || visit.stage.Logged? || visit.stage.Left? ==> visit.resp.Some?)
    && (visit.stage.Answered? ==> visit.arrival.isPost)
    && (visit.resp.Some? ==> (visit.summary.Some? <==> visit.arrival.isPost))
    && (visit.resp.Some? && visit.job.None? ==>
          && !Calls(setup, visit.arrival, visit.settings)
          && visit.resp.value == Quick(visit.arrival, visit.settings, setup.keyOf, NO_SUMMARY).0
          && (visit.summary.Some? ==>
                visit.summary.value == Quick(visit.arrival, visit.settings, setup.keyOf, NO_SUMMARY).1))
  }

  ghost predicate VisitsSane(setup: Setup, w: World) {
    && |w.owner| == |w.pool.jobs|
    && forall v :: 0 <= v < |w.visits| ==>
         VisitSane(setup, w.visits[v]) && CallSane(setup, w.pool.jobs, w.owner, v, w.visits[v])
  }

  /** A pool step leaves requests, and the results of calls that have returned. */
  lemma PoolStepKeepsReturned(cfg: P.Config, s: P.State, a: P.Action)
    requires P.Enabled(cfg, s, a) && !a.NewCall?
    ensures var t := P.Apply(cfg, s, a);
            && |t.jobs| == |s.jobs|
            && forall c :: 0 <= c < |s.jobs| ==>
                 t.jobs[c].req == s.jobs[c].req && (s.jobs[c].pc.Returned? ==> t.jobs[c].pc == s.jobs[c].pc)
  {
    match a
    case OfCaller(c, call) =>
    case OfSlot(i, step) => SlotStepKeepsPcs(cfg, s, i, step);
    case OfProcess(i, proc) =>
    case OfShutdown(shut) =>
  }

  lemma StepVisits(setup: Setup, w: World, a: Action)
    requires VisitsSane(setup, w) && Enabled(setup, w, a)
    ensures VisitsSane(setup, Apply(setup, w, a))
  {
    var x := Apply(setup, w, a);
    if a.PoolStep? { PoolStepKeepsReturned(setup.cfg, w.pool, a.a); }
    forall v | 0 <= v < |x.visits|
      ensures VisitSane(setup, x.visits[v]) && CallSane(setup, x.pool.jobs, x.owner, v, x.visits[v])
    {
      if v < |w.visits| {
        assert VisitSane(setup, w.visits[v]) && CallSane(setup, w.pool.jobs, w.owner, v, w.visits[v]);
      }
    }
  }

  // ---------- Counters ----------

  /** A request that is not a POST and has been refused. */
  ghost function Refused(visit: Visit): nat { if visit.resp.Some? && !visit.arrival.isPost then 1 else 0 }

  ghost function Unrecorded(visit: Visit): nat {
    if !IsLogged(visit) && !(visit.resp.Some? && !visit.arrival.isPost) then 1 else 0
  }

  ghost predicate CountersSane(w: World) { Tallied(w.visits, w.metrics) }

  lemma AnswerCounts(setup: Setup, w: World, a: Action, v: nat)
    requires CountersSane(w) && VisitsSane(setup, w) && Enabled(setup, w, a)
    requires (a.Reply? || a.Submit? || a.Return?) && v == a.v
    ensures CountersSane(Apply(setup, w, a))
  {
    var x := Apply(setup, w, a);
    assert VisitSane(setup, w.visits[v]);
    assert x.visits == w.visits[v := x.visits[v]] && x.metrics == w.metrics;
    KeptTallies(w.visits, w.metrics, v, x.visits[v]);
  }

  lemma StepCounters(setup: Setup, w: World, a: Action)
    requires CountersSane(w) && VisitsSane(setup, w) && Enabled(setup, w, a)
    ensures CountersSane(Apply(setup, w, a))
  {
    match a
    case Enter(arrival) => EnterTallies(w.visits, w.metrics, Visit(arrival, Entered, DEFAULTS, None, None, None));
    case Log(v, durMs) => LogTallies(w.visits, w.metrics, v, durMs);
    case Leave(v) => LeaveTallies(w.visits, w.metrics, v, w.visits[v].(stage := Left));
    case PoolStep(_) =>
    case StoreStep(_) =>
    case _ => AnswerCounts(setup, w, a, a.v);
  }

  // ---------- Settings ----------

  ghost predicate StoreSane(setup: Setup, w: World) {
    && S.Inv(setup.path, setup.disk, w.store) && S.AllHeldSane(w.store)
    && ConfigsSane(w.pool, w.store.held)
  }

  lemma StoreStepSane(setup: Setup, w: World, a: S.Action)
    requires StoreSane(setup, w) && S.Enabled(setup.path, w.store, a)
    ensures var t := S.Apply(setup.path, w.store, a);
            S.Inv(setup.path, setup.disk, t) && S.AllHeldSane(t)
  {
    S.StepInv(setup.path, setup.disk, w.store, a);
    S.StepHeld(setup.path, setup.disk, w.store, a);
  }

  /** An update changes what held structs show, not what has been sent of them. */
  lemma UpdateKeepsSent(setup: Setup, w: World, a: S.Action)
    requires StoreSane(setup, w) && S.Enabled(setup.path, w.store, a) && !a.Get? && !a.Marshal?
    ensures ConfigsSane(w.pool, S.Apply(setup.path, w.store, a).held)
  {
    var more := S.Apply(setup.path, w.store, a).held;
    forall c | 0 <= c < |w.store.held| ensures Keeps(w.store.held, more, c) {}
    KeptConfigs(w.pool, w.store.held, more);
  }

  lemma WriteStepSane(setup: Setup, w: World, p: P.Action)
    requires FullInv(setup.cfg, w.pool) && StoreSane(setup, w) && Enabled(setup, w, PoolStep(p)) && Writes(p)
    ensures StoreSane(setup, Apply(setup, w, PoolStep(p)))
  {
    var c := w.pool.slots[p.i].phase.job;
    StoreStepSane(setup, w, S.Marshal(c));
    MarshalConfigs(setup.cfg, w.pool, setup.path, w.store, p.i, c);
  }

  lemma SubmitStepSane(setup: Setup, w: World, v: nat)
    requires FullInv(setup.cfg, w.pool) && StoreSane(setup, w) && Enabled(setup, w, Submit(v))
    ensures StoreSane(setup, Apply(setup, w, Submit(v)))
  {
    var call := CallOf(setup, w.visits[v].arrival, w.store.cur);
    var more := S.Apply(setup.path, w.store, S.Get).held;
    StoreStepSane(setup, w, S.Get);
    NewCallConfigs(setup.cfg, w.pool, w.store.held, call.req, more[|w.store.held|]);
    assert more == w.store.held + [more[|w.store.held|]];
  }

  lemma StepStore(setup: Setup, w: World, a: Action)
    requires FullInv(setup.cfg, w.pool) && StoreSane(setup, w) && Enabled(setup, w, a)
    ensures StoreSane(setup, Apply(setup, w, a))
  {
    match a
    case Submit(v) => SubmitStepSane(setup, w, v);
    case PoolStep(p) =>
      if Writes(p) { WriteStepSane(setup, w, p); }
      else { PoolConfigs(setup.cfg, w.pool, w.store.held, p); }
    case StoreStep(step) =>
      StoreStepSane(setup, w, step);
      UpdateKeepsSent(setup, w, step);
    case _ =>
  }

  // ---------- Every reachable world ----------

  ghost predicate WorldInv(setup: Setup, w: World) {
    FullInv(setup.cfg, w.pool) && VisitsSane(setup, w) && CountersSane(w) && StoreSane(setup, w)
  }

  lemma StepPool(setup: Setup, w: World, a: Action)
    requires P.WfConfig(setup.cfg) && FullInv(setup.cfg, w.pool) && Enabled(setup, w, a)
    ensures FullInv(setup.cfg, Apply(setup, w, a).pool)
  {
    match a
    case Submit(v) =>
      StepFull(setup.cfg, w.pool, P.NewCall(CallOf(setup, w.visits[v].arrival, w.store.cur).req));
    case PoolStep(p) => StepFull(setup.cfg, w.pool, p);
    case _ =>
  }

  lemma StepWorld(setup: Setup, w: World, a: Action)
    requires P.WfConfig(setup.cfg) && WorldInv(setup, w) && Enabled(setup, w, a)
    ensures WorldInv(setup, Apply(setup, w, a))
  {
    StepPool(setup, w, a);
    StepVisits(setup, w, a);
    StepCounters(setup, w, a);
    StepStore(setup, w, a);
  }

  lemma InitStore(setup: Setup)
    ensures StoreSane(setup, Init(setup))
  {
    D.LoadedIsValid(setup.path, setup.disk);
  }

  lemma InitVisits(setup: Setup)
    ensures VisitsSane(setup, Init(setup)) && Init(setup).pool == P.Init(setup.cfg)
    ensures Init(setup).visits == [] && Init(setup).metrics == ZEROS
  {
  }

  lemma InitWorld(setup: Setup)
    ensures WorldInv(setup, Init(setup))
  {
    InitFull(setup.cfg);
    InitVisits(setup);
    NoneTallied(Init(setup).visits, Init(setup).metrics);
    InitStore(setup);
  }

  lemma {:induction false} RunInv(setup: Setup, worlds: seq<World>, actions: seq<Action>, n: nat)
    requires P.WfConfig(setup.cfg) && IsRun(setup, worlds, actions) && n < |worlds|
    ensures WorldInv(setup, worlds[n])
  {
    if n == 0 {
      InitWorld(setup);
    } else {
      RunInv(setup, worlds, actions, n - 1);
      StepWorld(setup, worlds[n - 1], actions[n - 1]);
    }
  }

  lemma ReachableInv(setup: Setup, w: World)
    requires P.WfConfig(setup.cfg) && Reachable(setup, w)
    ensures WorldInv(setup, w)
  {
    var worlds, actions :| IsRun(setup, worlds, actions) && worlds[|worlds| - 1] == w;
    RunInv(setup, worlds, actions, |worlds| - 1);
  }

  // ---------- End to end ----------

  /** The request a call's result answers: the one its visit prepared, under the
      settings its struct showed when it was marshalled. */
  ghost predicate AnsweredAs(setup: Setup, w: World, v: nat, written: Request, sent: S.Sent, result: Result)
    requires v < |w.visits| && Calls(setup, w.visits[v].arrival, w.visits[v].settings)
    requires w.visits[v].resp.Some? && w.visits[v].resp.value.Modify?
  {
    var visit := w.visits[v];
    && written == CallOf(setup, visit.arrival, visit.settings).req.(config := sent.settings)
    && setup.cfg.good(written, result) && result.tokensSaved > 0 && result.messages.Some?
    && SplicesInto(visit.arrival.payload.hook, visit.resp.value.requestBody, result.messages.value)
    && sent.settings == D.OverwrittenSince(visit.settings, sent.met)
    && (written == CallOf(setup, visit.arrival, visit.settings).req <==> D.HarmlessSince(visit.settings, sent.met))
  }

  /** The call a visit made has returned a result, and its request was written and its
      settings marshalled before. */
  predicate Concluded(w: World, v: nat)
    requires v < |w.visits|
  {
    && w.visits[v].job.Some?
    && var c := w.visits[v].job.value;
    && c < |w.pool.jobs| && c < |w.store.held|
    && w.pool.jobs[c].pc.Returned? && w.pool.jobs[c].pc.result.Ok?
    && w.pool.jobs[c].written.Some? && w.store.held[c].sent.Some?
  }

  /** A POST is answered "modify" only with the worthwhile result its own Compress call
      returned, one a worker produced for that same body's messages, put in their place,
      every other field kept. The settings the worker had are those the handler read if
      and only if the updates its struct met until it was marshalled were harmless to
      them, and otherwise what those updates made of them. */
  lemma ModifyIsOwnResult(setup: Setup, w: World, v: nat)
    requires P.WfConfig(setup.cfg) && Reachable(setup, w) && v < |w.visits|
    requires w.visits[v].resp.Some? && w.visits[v].resp.value.Modify?
    ensures Calls(setup, w.visits[v].arrival, w.visits[v].settings) && Concluded(w, v)
    ensures Compressible(w.visits[v].arrival.payload.hook)
    ensures forall k: nat :: MessagesAt(w.visits[v].arrival.payload.hook, k) ==>
              Asks(w.visits[v].arrival.payload.hook, k, w.visits[v].settings, setup.keyOf,
                   w.pool.jobs[w.visits[v].job.value].req)
    ensures var c := w.visits[v].job.value;
            var job, sent := w.pool.jobs[c], w.store.held[c].sent.value;
            c < |w.owner| && w.owner[c] == v && AnsweredAs(setup, w, v, job.written.value, sent, job.pc.result.result)
  {
    VisitFacts(setup, w);
    var visit := w.visits[v];
    assert VisitSane(setup, visit) && CallSane(setup, w.pool.jobs, w.owner, v, visit);
    var c := visit.job.value;
    CallsExactly(visit.arrival.payload.hook, visit.settings, setup.keyOf);
    ModifyMeansSpliced(visit.arrival.payload.hook, visit.settings, setup.keyOf, w.pool.jobs[c].pc.result);
    SentForJob(setup, w, c);
  }

  /** What was sent for a call that returned a result. */
  lemma SentForJob(setup: Setup, w: World, c: nat)
    requires P.WfConfig(setup.cfg) && Reachable(setup, w) && c < |w.pool.jobs|
    requires w.pool.jobs[c].pc.Returned? && w.pool.jobs[c].pc.result.Ok?
    ensures c < |w.store.held| && w.store.held[c].sent.Some? && w.pool.jobs[c].written.Some?
    ensures var job, sent := w.pool.jobs[c], w.store.held[c].sent.value;
            && job.written.value == job.req.(config := sent.settings)
            && setup.cfg.good(job.written.value, job.pc.result.result)
            && sent.settings == D.OverwrittenSince(job.req.config, sent.met)
            && (sent.settings == job.req.config <==> D.HarmlessSince(job.req.config, sent.met))
  {
    JobFacts(setup, w, c);
  }

  lemma JobFacts(setup: Setup, w: World, c: nat)
    requires P.WfConfig(setup.cfg) && Reachable(setup, w) && c < |w.pool.jobs|
    ensures JobSane(setup.cfg, w.pool.jobs[c]) && JobConfig(w.store.held, c, w.pool.jobs[c])
    ensures S.HeldSane(w.store, w.store.held[c])
  {
    ReachableInv(setup, w);
  }

  /** The settings a request is written with, whatever becomes of it, are valid, given
      that those its handler read were, exactly when the updates its struct met until it
      was marshalled left no bad value in its cells. */
  lemma WrittenValidExactly(setup: Setup, w: World, i: nat)
    requires P.WfConfig(setup.cfg) && Reachable(setup, w)
    requires i < |w.pool.slots| && w.pool.slots[i].phase.Reading?
    ensures WrittenAs(w.pool, w.store, i)
    ensures var c := w.pool.slots[i].phase.job;
            var req, written := w.pool.jobs[c].req, P.WrittenBy(w.pool.slots[i].worker).value;
            Valid(req.config) ==>
              (Valid(written.config) <==> !D.SpoiltSince(req.config, w.store.held[c].sent.value.met))
  {
    var c := w.pool.slots[i].phase.job;
    SlotFacts(setup, w, i);
    JobFacts(setup, w, c);
    WrittenIsSent(setup.cfg, w.pool, w.store, i);
  }

  lemma SlotFacts(setup: Setup, w: World, i: nat)
    requires P.WfConfig(setup.cfg) && Reachable(setup, w) && i < |w.pool.slots|
    ensures SlotConfig(w.store.held, w.pool.slots[i]) && SlotPlaced(w.pool, i)
    ensures SlotSane(setup.cfg, P.Cancelled(w.pool), w.pool.jobs, w.pool.slots[i])
  {
    ReachableInv(setup, w);
  }

  lemma VisitFacts(setup: Setup, w: World)
    requires P.WfConfig(setup.cfg) && Reachable(setup, w)
    ensures VisitsSane(setup, w) && CountersSane(w)
  {
    ReachableInv(setup, w);
  }

  /** Every decodable POST is answered "allow" or "modify"; it has made a Compress call
      exactly if its messages are an array or null, and is answered "modify" exactly when
      that call returned a result that saves tokens and has messages: an error of any
      kind, a cancelled request, or nothing saved leaves it alone. */
  lemma AnsweredAllowOrModify(setup: Setup, w: World, v: nat)
    requires P.WfConfig(setup.cfg) && Reachable(setup, w) && v < |w.visits|
    requires w.visits[v].arrival.isPost && !w.visits[v].arrival.payload.UnsupportedCoding?
    requires w.visits[v].resp.Some?
    ensures w.visits[v].resp.value == Allow || w.visits[v].resp.value.Modify?
    ensures w.visits[v].resp.value.Modify? <==>
              && w.visits[v].job.Some? && w.visits[v].job.value < |w.pool.jobs|
              && var job := w.pool.jobs[w.visits[v].job.value];
              && job.pc.Returned? && job.pc.result.Ok?
              && job.pc.result.result.tokensSaved > 0 && job.pc.result.result.messages.Some?
    ensures w.visits[v].job.Some? <==>
              w.visits[v].arrival.payload.Fine? && Compressible(w.visits[v].arrival.payload.hook)
  {
    VisitFacts(setup, w);
    var visit := w.visits[v];
    if visit.arrival.payload.Fine? { CallsExactly(visit.arrival.payload.hook, visit.settings, setup.keyOf); }
    assert VisitSane(setup, visit) && CallSane(setup, w.pool.jobs, w.owner, v, visit);
  }

  /** Over any interleaving: the maps sum to the requests recorded, failures are the
      "error" outcomes, every visit is recorded, refused with 405, or still to be
      recorded, and inboundDone never finds the active gauge at zero. */
  lemma MetricsConserved(setup: Setup, w: World)
    requires P.WfConfig(setup.cfg) && Reachable(setup, w)
    ensures Balanced(w.metrics)
    ensures w.metrics.requestsTotal == Sum(w.visits, WasLogged)
    ensures w.metrics.inboundTotal
            == w.metrics.requestsTotal + Sum(w.visits, Refused) + Sum(w.visits, Unrecorded)
    ensures forall v :: Enabled(setup, w, Leave(v)) ==> w.metrics.inboundActive > 0
  {
    VisitFacts(setup, w);
    VisitsPartition(setup, w);
    forall v | Enabled(setup, w, Leave(v)) ensures w.metrics.inboundActive > 0 { SumMember(w.visits, v, Present); }
  }

  ghost function Accounted(visit: Visit): nat { WasLogged(visit) + Refused(visit) }

  ghost function One(visit: Visit): nat { 1 }

  /** A visit is recorded, refused, or neither yet. */
  lemma VisitsPartition(setup: Setup, w: World)
    requires VisitsSane(setup, w)
    ensures |w.visits| == Sum(w.visits, WasLogged) + Sum(w.visits, Refused) + Sum(w.visits, Unrecorded)
  {
    forall x | x in w.visits ensures One(x) == Accounted(x) + Unrecorded(x) {
      var v :| 0 <= v < |w.visits| && w.visits[v] == x;
      assert VisitSane(setup, w.visits[v]);
    }
    SumSplit(w.visits, One, Accounted, Unrecorded);
    SumSplit(w.visits, Accounted, WasLogged, Refused);
    SumOnes(w.visits);
  }

  lemma {:induction false} SumOnes(visits: seq<Visit>)
    ensures Sum(visits, One) == |visits|
  {
    if visits != [] { SumOnes(visits[..|visits| - 1]); }
  }

  // ---------- What the counters tell ----------

  /** A visit's Compress call has come back with a result. */
  predicate CameBack(jobs: seq<P.Job>, visit: Visit) {
    && visit.job.Some? && visit.job.value < |jobs|
    && jobs[visit.job.value].pc.Returned? && jobs[visit.job.value].pc.result.Ok?
  }

  /** How a request that was recorded has ended, in the words of /metrics. */
  ghost function EndOf(jobs: seq<P.Job>, visit: Visit): string {
    match visit.arrival.payload
    case ReadFails => "read_error"
    case UnsupportedCoding => "reject_encoding"
    case CorruptBody => "decode_error"
    case Fine(hook) =>
      if !Compressible(hook) then "passthrough"
      else if !CameBack(jobs, visit) then "error"
      else if visit.resp.Some? && visit.resp.value.Modify? then "modify"
      else "noop"
  }

  function OrUnknown(text: string): string { if text == "" then "unknown" else text }

  predicate HasBody(visit: Visit) {
    visit.arrival.payload.Fine? && visit.arrival.payload.hook.Hook? && visit.arrival.payload.hook.requestBody.Some?
  }

  function ProviderTold(visit: Visit): string {
    if HasBody(visit) then OrUnknown(visit.arrival.payload.hook.provider) else "unknown"
  }

  function ModelTold(jobs: seq<P.Job>, visit: Visit): string {
    if visit.job.Some? && visit.job.value < |jobs| then OrUnknown(jobs[visit.job.value].req.model)
    else if HasBody(visit) then OrUnknown(visit.arrival.payload.hook.model)
    else "unknown"
  }

  /** Its summary says so. */
  ghost predicate ToldRight(jobs: seq<P.Job>, visit: Visit) {
    visit.summary.Some? && visit.resp.Some? ==>
      var s := visit.summary.value;
      && OutcomeOf(s.reason) == EndOf(jobs, visit)
      && LabelOrUnknown(s.provider) == ProviderTold(visit) && LabelOrUnknown(s.model) == ModelTold(jobs, visit)
      && if CameBack(jobs, visit)
         then var result := jobs[visit.job.value].pc.result.result;
              s.tokensBefore == result.tokensBefore && s.tokensSaved == result.tokensSaved
              && s.tokensAfter == result.tokensAfter && s.cold == result.cold
         else s.tokensBefore == s.tokensSaved == s.tokensAfter == 0 && !s.cold
  }

  lemma VisitToldRight(setup: Setup, jobs: seq<P.Job>, owner: seq<nat>, v: nat, visit: Visit)
    requires VisitSane(setup, visit) && CallSane(setup, jobs, owner, v, visit)
    ensures ToldRight(jobs, visit)
  {
    if visit.arrival.payload.Fine? && visit.summary.Some? && visit.resp.Some? {
      var hook := visit.arrival.payload.hook;
      CallsExactly(hook, visit.settings, setup.keyOf);
      if visit.job.Some? {
        ModifyMeansSpliced(hook, visit.settings, setup.keyOf, jobs[visit.job.value].pc.result);
        if k: nat :| MessagesAt(hook, k) {}
      } else {
        PassesOn(hook, visit.settings, setup.keyOf);
      }
    }
  }

  ghost function EndedAs(jobs: seq<P.Job>, name: string): Visit -> nat {
    (visit: Visit) => if IsLogged(visit) && EndOf(jobs, visit) == name then 1 else 0
  }

  ghost function OfProvider(name: string): Visit -> nat {
    (visit: Visit) => if IsLogged(visit) && ProviderTold(visit) == name then 1 else 0
  }

  ghost function OfModel(jobs: seq<P.Job>, name: string): Visit -> nat {
    (visit: Visit) => if IsLogged(visit) && ModelTold(jobs, visit) == name then 1 else 0
  }

  /** An amount of the results that recorded requests came back with. */
  ghost function Given(jobs: seq<P.Job>, amount: Result -> int): Visit -> int {
    (visit: Visit) =>
      if IsLogged(visit) && CameBack(jobs, visit) then amount(jobs[visit.job.value].pc.result.result) else 0
  }

  /** In any reachable state each label of /metrics counts exactly the recorded requests
      that ended in that way, came from that provider, or were for that model; and the
      tokens are those of the results that calls came back with. */
  lemma MetricsTellVisits(setup: Setup, w: World, name: string)
    requires P.WfConfig(setup.cfg) && Reachable(setup, w)
    ensures CountOf(w.metrics.byOutcome, name) == Sum(w.visits, EndedAs(w.pool.jobs, name))
    ensures CountOf(w.metrics.byProvider, name) == Sum(w.visits, OfProvider(name))
    ensures CountOf(w.metrics.byModel, name) == Sum(w.visits, OfModel(w.pool.jobs, name))
    ensures w.metrics.tokensInput == SumInt(w.visits, Given(w.pool.jobs, (r: Result) => r.tokensBefore))
    ensures w.metrics.tokensSaved == SumInt(w.visits, Given(w.pool.jobs, (r: Result) => r.tokensSaved))
    ensures w.metrics.tokensAfter == SumInt(w.visits, Given(w.pool.jobs, (r: Result) => r.tokensAfter))
  {
    AllToldRight(setup, w);
    var jobs := w.pool.jobs;
    SumSame(w.visits, AsOutcome(name), EndedAs(jobs, name));
    SumSame(w.visits, AsProvider(name), OfProvider(name));
    SumSame(w.visits, AsModel(name), OfModel(jobs, name));
    SumIntSame(w.visits, Before, Given(jobs, (r: Result) => r.tokensBefore));
    SumIntSame(w.visits, Saved, Given(jobs, (r: Result) => r.tokensSaved));
    SumIntSame(w.visits, After, Given(jobs, (r: Result) => r.tokensAfter));
  }

  lemma AllToldRight(setup: Setup, w: World)
    requires P.WfConfig(setup.cfg) && Reachable(setup, w)
    ensures CountersSane(w)
    ensures forall x :: x in w.visits ==> ToldRight(w.pool.jobs, x) && (IsLogged(x) ==> x.resp.Some?)
  {
    VisitFacts(setup, w);
    forall x | x in w.visits ensures ToldRight(w.pool.jobs, x) && (IsLogged(x) ==> x.resp.Some?) {
      var v :| 0 <= v < |w.visits| && w.visits[v] == x;
      assert VisitSane(setup, x) && CallSane(setup, w.pool.jobs, w.owner, v, x);
      VisitToldRight(setup, w.pool.jobs, w.owner, v, x);
    }
  }

  ghost function ColdVisits(visits: seq<Visit>): set<nat> {
    set v: nat | v < |visits| && IsCold(visits[v])
  }

  lemma {:induction false} ColdVisitsCounted(visits: seq<Visit>)
    ensures |ColdVisits(visits)| == Sum(visits, ColdLogged)
  {
    if visits != [] {
      var n := |visits| - 1;
      var front := visits[..n];
      ColdVisitsCounted(front);
      assert ColdVisits(visits) == ColdVisits(front) + (if IsCold(visits[n]) then {n} else {});
    }
  }

  /** Against the worker.py loop, cold starts counted number at most the workers that
      got ready. */
  lemma ColdStartsBounded(setup: Setup, w: World)
    requires P.WfConfig(setup.cfg) && setup.cfg.strict && Reachable(setup, w)
    ensures w.metrics.coldStarts <= |w.pool.hist.ready|
  {
    ReachableInv(setup, w);
    ColdVisitsCounted(w.visits);
    var servedBy := (v: nat) => ServedBy(w, v);
    forall v | v in ColdVisits(w.visits)
      ensures servedBy(v) in w.pool.hist.ready
      ensures ColdOrigin(w, v)
    {
      ColdVisitOrigin(setup, w, v);
    }
    forall v, u | v in ColdVisits(w.visits) && u in ColdVisits(w.visits) && servedBy(v) == servedBy(u) ensures v == u {
      assert ColdOrigin(w, v) && ColdOrigin(w, u);
    }
    InjectiveInto(ColdVisits(w.visits), servedBy, w.pool.hist.ready);
  }

  /** The process that answered a visit's call. */
  ghost function ServedBy(w: World, v: nat): nat {
    if v < |w.visits| && w.visits[v].job.Some? && w.visits[v].job.value < |w.pool.jobs|
    then w.pool.jobs[w.visits[v].job.value].servedBy else 0
  }

  /** A visit answered cold can be found from the process that answered it. */
  ghost predicate ColdOrigin(w: World, v: nat) {
    && ServedBy(w, v) in w.pool.hist.coldOf
    && w.pool.hist.coldOf[ServedBy(w, v)] < |w.owner|
    && w.owner[w.pool.hist.coldOf[ServedBy(w, v)]] == v
  }

  lemma ColdVisitOrigin(setup: Setup, w: World, v: nat)
    requires P.WfConfig(setup.cfg) && Reachable(setup, w) && setup.cfg.strict && v in ColdVisits(w.visits)
    ensures ServedBy(w, v) in w.pool.hist.ready && ColdOrigin(w, v)
  {
    var visit := w.visits[v];
    VisitFacts(setup, w);
    assert VisitSane(setup, visit) && CallSane(setup, w.pool.jobs, w.owner, v, visit);
    var c := visit.job.value;
    JobFacts(setup, w, c);
    ColdFacts(setup, w, c);
  }

  lemma ColdFacts(setup: Setup, w: World, c: nat)
    requires P.WfConfig(setup.cfg) && Reachable(setup, w) && setup.cfg.strict && c < |w.pool.jobs|
    ensures JobCold(w.pool, c)
  {
    ReachableInv(setup, w);
  }
}
