/** What becomes of a call once its outcome is known to its slot: it is that outcome
    or none, in every continuation. So a refused line is never delivered, and it can
    be said exactly which calls in flight at a cancel are sure of their result. */
module PoolOutcomes {
  import opened PoolInvariant
  import opened PoolLedger
  import opened PoolMachine
  import opened PoolRefinement
  import opened PoolRuns
  import opened PoolShutdown
  import opened Protocol
  import opened SettingsValues
  import opened Wrappers

  /** The slot has outcome `out` for job c and has yet to send it. */
  predicate Owes(phase: Phase, c: JobId, out: Outcome) {
    match phase
    case Spawning(k) => k == ForReply(c, out)
    case Starting(k) => k == ForReply(c, out)
    case AwaitReady(k) => k == ForReply(c, out)
    case ReapFailed(k) => k == ForReply(c, out)
    case Backoff(k) => k == ForReply(c, out)
    case Done(d, o) => d == c && o == out
    case Recycle(d, o) => d == c && o == out
    case Reply(d, o) => d == c && o == out
    case _ => false
  }

  /** Job c has been answered with `out` or slot i is about to. */
  ghost predicate Bound(s: State, i: nat, c: JobId, out: Outcome) {
    && c < |s.jobs| && i < |s.slots|
    && (s.jobs[c].answer == Some(out) || (Owes(s.slots[i].phase, c, out) && s.jobs[c].answer.None?))
  }

  lemma TicketTells(s: State, c: JobId)
    requires c < |s.jobs|
    ensures |Tickets(s)| == |s.jobs|
    ensures Tickets(s)[c].status.Settled? ==> s.jobs[c].answer == Some(Tickets(s)[c].status.out)
    ensures s.jobs[c].loc.Answered? && s.jobs[c].answer.Some? ==> Tickets(s)[c].status.Settled?
  {
  }

  lemma AnswerStays(cfg: Config, s: State, a: Action, c: JobId)
    requires FullInv(cfg, s) && Enabled(cfg, s, a) && c < |s.jobs| && s.jobs[c].answer.Some?
    ensures var t := Apply(cfg, s, a); c < |t.jobs| && t.jobs[c].answer == s.jobs[c].answer
  {
    var t := Apply(cfg, s, a);
    assert JobSane(cfg, s.jobs[c]);
    TicketTells(s, c);
    StepRefines(cfg, s, a);
    SettledStays(cfg.good, Tickets(s), EventOf(cfg, s, a), Tickets(t), c);
    TicketTells(t, c);
  }

  lemma OwnStepOwes(cfg: Config, s: State, i: nat, a: SlotAction, c: JobId, out: Outcome)
    requires i < |s.slots| && SlotEnabled(s, i, a) && Owes(s.slots[i].phase, c, out) && c < |s.jobs|
    ensures var t := SlotApply(cfg, s, i, a);
            if a.SendReply? then c < |t.jobs| && t.jobs[c].answer == Some(out)
            else t.jobs == s.jobs && i < |t.slots| && Owes(t.slots[i].phase, c, out)
  {
  }

  lemma OtherStepOwes(cfg: Config, s: State, a: Action, i: nat, c: JobId, out: Outcome)
    requires FullInv(cfg, s) && Enabled(cfg, s, a) && !(a.OfSlot? && a.i == i)
    requires i < |s.slots| && c < |s.jobs| && Owes(s.slots[i].phase, c, out)
    ensures var t := Apply(cfg, s, a);
            && i < |t.slots| && t.slots[i].phase == s.slots[i].phase
            && c < |t.jobs| && t.jobs[c].answer == s.jobs[c].answer
  {
    assert SlotPlaced(s, i);
    match a
    case NewCall(_) =>
    case OfCaller(d, call) => CallerStepFrame(cfg, s, d, call);
    case OfSlot(k, step) => OtherSlotOwes(cfg, s, k, step, c);
    case OfProcess(_, _) =>
    case OfShutdown(_) =>
  }

  lemma OtherSlotOwes(cfg: Config, s: State, k: nat, a: SlotAction, c: JobId)
    requires FullInv(cfg, s) && k < |s.slots| && SlotEnabled(s, k, a)
    requires c < |s.jobs| && s.jobs[c].loc != InSlot(k)
    ensures var t := SlotApply(cfg, s, k, a);
            && t.slots == s.slots[k := t.slots[k]]
            && c < |t.jobs| && t.jobs[c].answer == s.jobs[c].answer
  {
    assert SlotPlaced(s, k);
    SlotStepFrame(cfg, s, k, a);
    if !MovesJob(a) { SlotStepLocal(cfg, s, k, a); }
  }

  /** No step changes an outcome that is owed or has been sent. */
  lemma BoundStays(cfg: Config, s: State, a: Action, i: nat, c: JobId, out: Outcome)
    requires FullInv(cfg, s) && Enabled(cfg, s, a) && Bound(s, i, c, out)
    ensures Bound(Apply(cfg, s, a), i, c, out)
  {
    SlotsStay(cfg, s, a);
    if s.jobs[c].answer.Some? {
      AnswerStays(cfg, s, a, c);
    } else if a.OfSlot? && a.i == i {
      OwnStepOwes(cfg, s, i, a.step, c, out);
    } else {
      OtherStepOwes(cfg, s, a, i, c, out);
    }
  }

  lemma SlotsStay(cfg: Config, s: State, a: Action)
    requires Enabled(cfg, s, a)
    ensures |Apply(cfg, s, a).slots| == |s.slots|
  {
    match a
    case OfCaller(c, call) => CallerStepFrame(cfg, s, c, call);
    case OfSlot(i, step) => SlotStepFrame(cfg, s, i, step);
    case _ =>
  }

  // ---------- A refused line is never delivered ----------

  /** Worker p of slot i is about to be killed over job c, or has been. */
  ghost predicate Condemned(s: State, i: nat, c: JobId, p: nat) {
    || (p < |s.waits| && s.waits[p] == 1)
    || (&& i < |s.slots| && PidOf(s.slots[i]) == Some(p)
        && (s.slots[i].phase == Done(c, Failed(WorkerFailed)) || s.slots[i].phase == Recycle(c, Failed(WorkerFailed))))
  }

  lemma WaitsGrow(cfg: Config, s: State, a: Action, p: nat)
    requires Enabled(cfg, s, a) && p < |s.waits|
    ensures var t := Apply(cfg, s, a); p < |t.waits| && t.waits[p] >= s.waits[p]
  {
    match a
    case NewCall(_) =>
    case OfCaller(c, call) => CallerStepFrame(cfg, s, c, call);
    case OfSlot(i, step) => SlotWaitsGrow(cfg, s, i, step, p);
    case OfProcess(_, _) =>
    case OfShutdown(_) =>
  }

  lemma SlotWaitsGrow(cfg: Config, s: State, i: nat, a: SlotAction, p: nat)
    requires i < |s.slots| && SlotEnabled(s, i, a) && p < |s.waits|
    ensures var t := SlotApply(cfg, s, i, a); p < |t.waits| && t.waits[p] >= s.waits[p]
  {
    var t := SlotApply(cfg, s, i, a);
    if a.StartOk? { assert t.waits == s.waits + [0]; }
    else if Reaps(a) { assert t.waits == Reap(s.waits, s.slots[i].worker); }
    else { QuietStepKeepsPids(cfg, s, i, a); }
  }

  lemma OwnStepCondemned(cfg: Config, s: State, i: nat, a: SlotAction, c: JobId, p: nat)
    requires FullInv(cfg, s) && i < |s.slots| && SlotEnabled(s, i, a) && Condemned(s, i, c, p)
    requires !(p < |s.waits| && s.waits[p] == 1)
    ensures Condemned(SlotApply(cfg, s, i, a), i, c, p)
  {
    assert WorkerOwned(s, i);
  }

  lemma CondemnedStays(cfg: Config, s: State, a: Action, i: nat, c: JobId, p: nat)
    requires WfConfig(cfg) && FullInv(cfg, s) && Enabled(cfg, s, a) && Condemned(s, i, c, p)
    ensures Condemned(Apply(cfg, s, a), i, c, p)
  {
    var t := Apply(cfg, s, a);
    StepFull(cfg, s, a);
    if p < |s.waits| && s.waits[p] == 1 {
      WaitsGrow(cfg, s, a, p);
      assert ProcessOwned(t, p);
    } else if a.OfSlot? && a.i == i {
      OwnStepCondemned(cfg, s, i, a.step, c, p);
    } else {
      OtherStepKeepsSlot(cfg, s, a, i);
    }
  }

  lemma OtherStepKeepsSlot(cfg: Config, s: State, a: Action, i: nat)
    requires Enabled(cfg, s, a) && !(a.OfSlot? && a.i == i) && i < |s.slots| && !s.slots[i].phase.Idle?
    ensures var t := Apply(cfg, s, a);
            i < |t.slots| && t.slots[i].phase == s.slots[i].phase && PidOf(t.slots[i]) == PidOf(s.slots[i])
  {
    match a
    case OfCaller(c, call) => CallerStepFrame(cfg, s, c, call);
    case OfSlot(k, step) => SlotStepFrame(cfg, s, k, step);
    case _ =>
  }

  /** What the reader brought is no result under the id asked for: end of file, an
      error reply, junk, or a reply to another request. */
  predicate Refused(got: Option<Line>, id: nat) {
    got.None? || !got.value.OkLine? || got.value.id != id
  }

  lemma RefusalStarts(cfg: Config, s: State, i: nat, got: Option<Line>)
    requires WfConfig(cfg) && FullInv(cfg, s) && Enabled(cfg, s, OfSlot(i, ReadGot))
    requires s.slots[i].worker.value.reader == Got(got) && Refused(got, s.slots[i].worker.value.nextId)
    ensures var t := Apply(cfg, s, OfSlot(i, ReadGot));
            var c := s.slots[i].phase.job;
            Bound(t, i, c, Failed(WorkerFailed)) && Condemned(t, i, c, s.slots[i].worker.value.pid)
  {
    assert SlotPlaced(s, i) && JobSane(cfg, s.jobs[s.slots[i].phase.job]);
  }

  lemma {:induction false} DoomStays(
    cfg: Config, states: seq<State>, actions: seq<Action>, m: nat, n: nat, i: nat, c: JobId, p: nat, out: Outcome)
    requires WfConfig(cfg) && IsRun(cfg, states, actions) && m <= n < |states|
    requires Bound(states[m], i, c, out) && Condemned(states[m], i, c, p)
    ensures Bound(states[n], i, c, out) && Condemned(states[n], i, c, p)
  {
    if m < n {
      var s, a := states[n - 1], actions[n - 1];
      assert states[n - 1 + 1] == Apply(cfg, s, a);
      DoomStays(cfg, states, actions, m, n - 1, i, c, p, out);
      RunFull(cfg, states, actions, n - 1);
      BoundStays(cfg, s, a, i, c, out);
      CondemnedStays(cfg, s, a, i, c, p);
    }
  }

  /** In any run, once a slot has read such a line its call never gets a result: in
      every later state it is unanswered or answered with an error, and the worker
      that wrote the line is about to be killed or has been waited on, once. */
  lemma RefusedNeverDelivered(
    cfg: Config, states: seq<State>, actions: seq<Action>, m: nat, n: nat, i: nat, got: Option<Line>)
    requires WfConfig(cfg) && IsRun(cfg, states, actions) && m < n < |states| && actions[m] == OfSlot(i, ReadGot)
    requires states[m].slots[i].worker.value.reader == Got(got)
    requires got.None? || !got.value.OkLine? || got.value.id != states[m].slots[i].worker.value.nextId
    ensures var c := states[m].slots[i].phase.job;
            && c < |states[n].jobs|
            && (states[n].jobs[c].answer.Some? ==> states[n].jobs[c].answer.value == Failed(WorkerFailed))
            && Condemned(states[n], i, c, states[m].slots[i].worker.value.pid)
  {
    var s := states[m];
    var c, p := s.slots[i].phase.job, s.slots[i].worker.value.pid;
    RunFull(cfg, states, actions, m);
    RefusalStarts(cfg, s, i, got);
    assert states[m + 1] == Apply(cfg, s, actions[m]);
    DoomStays(cfg, states, actions, m + 1, n, i, c, p, Failed(WorkerFailed));
  }

  // ---------- A result is ----------

  lemma {:induction false} BoundRuns(
    cfg: Config, states: seq<State>, actions: seq<Action>, m: nat, n: nat, i: nat, c: JobId, out: Outcome)
    requires WfConfig(cfg) && IsRun(cfg, states, actions) && m <= n < |states| && Bound(states[m], i, c, out)
    ensures Bound(states[n], i, c, out)
  {
    if m < n {
      BoundRuns(cfg, states, actions, m, n - 1, i, c, out);
      RunFull(cfg, states, actions, n - 1);
      BoundStays(cfg, states[n - 1], actions[n - 1], i, c, out);
      assert states[n - 1 + 1] == Apply(cfg, states[n - 1], actions[n - 1]);
    }
  }

  lemma ResultRead(cfg: Config, s: State, i: nat, result: Result)
    requires i < |s.slots| && SlotEnabled(s, i, ReadGot)
    requires var w := s.slots[i].worker.value; w.reader == Got(Some(OkLine(w.nextId, result)))
    ensures var t := SlotApply(cfg, s, i, ReadGot);
            t.jobs == s.jobs && |t.slots| == |s.slots|
            && t.slots[i].phase == Done(s.slots[i].phase.job, Ok(result, i))
            && t.slots[i].worker == Some(s.slots[i].worker.value.(reader := NoReader))
  {
  }

  lemma ResultBinds(cfg: Config, s: State, i: nat, result: Result)
    requires FullInv(cfg, s) && i < |s.slots| && SlotEnabled(s, i, ReadGot)
    requires var w := s.slots[i].worker.value; w.reader == Got(Some(OkLine(w.nextId, result)))
    ensures Bound(SlotApply(cfg, s, i, ReadGot), i, s.slots[i].phase.job, Ok(result, i))
  {
    assert SlotPlaced(s, i) && JobSane(cfg, s.jobs[s.slots[i].phase.job]);
    ResultRead(cfg, s, i, result);
  }

  /** In any run, once a slot has read an ok line under the current id, in every later
      state its call is answered with that line's result, or its slot is about to. */
  lemma ResultAlwaysDelivered(
    cfg: Config, states: seq<State>, actions: seq<Action>, m: nat, n: nat, i: nat, result: Result)
    requires WfConfig(cfg) && IsRun(cfg, states, actions) && m < n < |states| && actions[m] == OfSlot(i, ReadGot)
    requires var w := states[m].slots[i].worker.value; w.reader == Got(Some(OkLine(w.nextId, result)))
    ensures Bound(states[n], i, states[m].slots[i].phase.job, Ok(result, i))
  {
    var c := states[m].slots[i].phase.job;
    RunFull(cfg, states, actions, m);
    ResultBinds(cfg, states[m], i, result);
    assert states[m + 1] == Apply(cfg, states[m], actions[m]);
    BoundRuns(cfg, states, actions, m + 1, n, i, c, Ok(result, i));
  }

  /** A slot with a live worker and nothing in its pipes has received a job. */
  ghost predicate ReadyToServe(s: State, i: nat, c: JobId, w: Worker) {
    && i < |s.slots| && s.slots[i] == Slot(Taken(c), Some(w)) && c < |s.jobs|
    && !w.crashed && w.stdin == [] && w.current.None? && w.stdout == [] && w.reader.NoReader?
  }

  /** The request is written, under the next id, and the process takes it. */
  lemma Asked(cfg: Config, s: State, i: nat, c: JobId, w: Worker, config: Settings) returns (t: State, v: Worker)
    requires Reachable(cfg, s) && ReadyToServe(s, i, c, w)
    ensures Reachable(cfg, t) && t.jobs == s.jobs && |t.slots| == |s.slots| && t.slots[i] == Slot(Reading(c), Some(v))
    ensures v.current == Some(In(w.nextId + 1, s.jobs[c].req.(config := config))) && v.nextId == w.nextId + 1
    ensures v.reader.Blocked? && v.stdout == [] && !v.crashed && v.served == w.served && v.pid == w.pid
  {
    var s1 := Apply(cfg, s, OfSlot(i, Begin));
    ReachStep(cfg, s, OfSlot(i, Begin));
    var s2 := Apply(cfg, s1, OfSlot(i, WriteOk(config)));
    ReachStep(cfg, s1, OfSlot(i, WriteOk(config)));
    t := Apply(cfg, s2, OfProcess(i, Consume));
    ReachStep(cfg, s2, OfProcess(i, Consume));
    v := t.slots[i].worker.value;
  }

  /** It answers, and the reader gets the line. */
  lemma Replied(cfg: Config, s: State, i: nat, c: JobId, v: Worker, request: In, result: Result)
    returns (t: State, u: Worker)
    requires Reachable(cfg, s) && i < |s.slots| && s.slots[i] == Slot(Reading(c), Some(v))
    requires v.current == Some(request) && request.id == v.nextId && v.reader.Blocked? && v.stdout == [] && !v.crashed
    requires cfg.good(request.req, result) && result.cold == !v.served
    ensures Reachable(cfg, t) && t.jobs == s.jobs && |t.slots| == |s.slots| && t.slots[i] == Slot(Reading(c), Some(u))
    ensures u.reader == Got(Some(OkLine(u.nextId, result))) && u.pid == v.pid && u.nextId == v.nextId
  {
    var answer := OfProcess(i, Answer(OkLine(v.nextId, result), true));
    var s1 := Apply(cfg, s, answer);
    ReachStep(cfg, s, answer);
    t := Apply(cfg, s1, OfProcess(i, ReaderGetsLine));
    ReachStep(cfg, s1, OfProcess(i, ReaderGetsLine));
    u := t.slots[i].worker.value;
  }

  /** The slot reads it, and sends the result. */
  lemma Sent(cfg: Config, s: State, i: nat, c: JobId, u: Worker, result: Result) returns (t: State)
    requires WfConfig(cfg) && Reachable(cfg, s) && i < |s.slots| && s.slots[i] == Slot(Reading(c), Some(u))
    requires u.reader == Got(Some(OkLine(u.nextId, result)))
    ensures Reachable(cfg, t) && i < |t.slots| && t.slots[i] == Slot(Idle, Some(u.(reader := NoReader)))
    ensures c < |t.jobs| && t.jobs[c].resp == [Ok(result, i)] && t.jobs[c].answer == Some(Ok(result, i))
  {
    JobHeld(cfg, s, i, c);
    var s1 := Apply(cfg, s, OfSlot(i, ReadGot));
    ReachStep(cfg, s, OfSlot(i, ReadGot));
    ResultRead(cfg, s, i, result);
    var s2 := Apply(cfg, s1, OfSlot(i, EndCall));
    ReachStep(cfg, s1, OfSlot(i, EndCall));
    t := ReplySent(cfg, s2, i, c, u.(reader := NoReader), Ok(result, i));
  }

  lemma ReplySent(cfg: Config, s: State, i: nat, c: JobId, w: Worker, out: Outcome) returns (t: State)
    requires Reachable(cfg, s) && i < |s.slots| && s.slots[i] == Slot(Reply(c, out), Some(w))
    requires c < |s.jobs| && s.jobs[c].resp == []
    ensures Reachable(cfg, t) && i < |t.slots| && t.slots[i] == Slot(Idle, Some(w))
    ensures c < |t.jobs| && t.jobs[c].resp == [out] && t.jobs[c].answer == Some(out)
  {
    t := Apply(cfg, s, OfSlot(i, SendReply));
    ReachStep(cfg, s, OfSlot(i, SendReply));
  }

  lemma JobHeld(cfg: Config, s: State, i: nat, c: JobId)
    requires WfConfig(cfg) && Reachable(cfg, s) && i < |s.slots| && Holds(s.slots[i].phase) == Some(c)
    ensures c < |s.jobs| && s.jobs[c].resp == [] && s.jobs[c].answer.None?
  {
    ReachableFull(cfg, s);
    assert SlotPlaced(s, i) && JobSane(cfg, s.jobs[c]);
  }

  /** A call received by a slot with a live worker can come back with any result that is
      good for its request, under whatever settings it is written, and the slot goes on
      with the same worker, one id further. */
  lemma CallCanSucceed(cfg: Config, s: State, i: nat, c: JobId, w: Worker, config: Settings, result: Result)
    returns (t: State)
    requires WfConfig(cfg) && Reachable(cfg, s) && ReadyToServe(s, i, c, w)
    requires cfg.good(s.jobs[c].req.(config := config), result) && result.cold == !w.served
    ensures Reachable(cfg, t) && i < |t.slots| && t.slots[i].phase.Idle? && t.slots[i].worker.Some?
    ensures t.slots[i].worker.value.pid == w.pid && t.slots[i].worker.value.nextId == w.nextId + 1
    ensures c < |t.jobs| && t.jobs[c].resp == [Ok(result, i)] && t.jobs[c].answer == Some(Ok(result, i))
  {
    var s1, v := Asked(cfg, s, i, c, w, config);
    var s2, u := Replied(cfg, s1, i, c, v, v.current.value, result);
    t := Sent(cfg, s2, i, c, u, result);
  }

  // ---------- Which calls in flight at the cancel get their result ----------

  ghost predicate RunFrom(cfg: Config, s: State, states: seq<State>, actions: seq<Action>) {
    && |states| == |actions| + 1
    && states[0] == s
    && forall n :: 0 <= n < |actions| ==> Step(cfg, states[n], actions[n], states[n + 1])
  }

  predicate NoError(s: State, c: JobId) {
    c < |s.jobs| && s.jobs[c].answer.Some? ==> s.jobs[c].answer.value.Ok?
  }

  /** However things go on from here, if job c is answered it is with a result. */
  ghost predicate SureOfResult(cfg: Config, s: State, c: JobId) {
    forall states: seq<State>, actions: seq<Action> ::
      RunFrom(cfg, s, states, actions) ==> NoError(states[|actions|], c)
  }

  predicate HasResult(phase: Phase) { (phase.Done? || phase.Reply?) && phase.out.Ok? }

  lemma {:induction false} RunFromBound(
    cfg: Config, states: seq<State>, actions: seq<Action>, n: nat, i: nat, c: JobId, out: Outcome)
    requires WfConfig(cfg) && n < |states| && RunFrom(cfg, states[0], states, actions)
    requires FullInv(cfg, states[0]) && Bound(states[0], i, c, out)
    ensures FullInv(cfg, states[n]) && Bound(states[n], i, c, out)
  {
    if n > 0 {
      RunFromBound(cfg, states, actions, n - 1, i, c, out);
      assert Step(cfg, states[n - 1], actions[n - 1], states[n - 1 + 1]);
      StepBound(cfg, states[n - 1], actions[n - 1], states[n], i, c, out);
    }
  }

  lemma StepBound(cfg: Config, s: State, a: Action, t: State, i: nat, c: JobId, out: Outcome)
    requires WfConfig(cfg) && FullInv(cfg, s) && Bound(s, i, c, out) && Step(cfg, s, a, t)
    ensures FullInv(cfg, t) && Bound(t, i, c, out)
  {
    StepFull(cfg, s, a);
    BoundStays(cfg, s, a, i, c, out);
  }

  /** A step towards an error that a cancelled slot can always take. */
  function CutStep(slot: Slot): SlotAction {
    match slot.phase
    case Starting(_) => StartFails
    case Backoff(_) => BackoffCancelled
    case Reading(_) => ReadCancelled
    case _ => NextStep(slot)
  }

  /** Job c is held, and its slot has no result for it. */
  ghost predicate Doomable(s: State, i: nat, c: JobId) {
    && Cancelled(s) && i < |s.slots| && c < |s.jobs|
    && Holds(s.slots[i].phase) == Some(c) && !HasResult(s.slots[i].phase)
  }

  lemma CutStepEnabled(cfg: Config, s: State, i: nat, c: JobId)
    requires WfConfig(cfg) && FullInv(cfg, s) && Doomable(s, i, c)
    ensures Enabled(cfg, s, OfSlot(i, CutStep(s.slots[i])))
  {
    SlotNeverStuck(cfg, s, i);
  }

  /** It leads to an error answer or leaves less to do. */
  lemma CutStepCuts(cfg: Config, s: State, i: nat, c: JobId)
    requires WfConfig(cfg) && FullInv(cfg, s) && Doomable(s, i, c)
    requires Enabled(cfg, s, OfSlot(i, CutStep(s.slots[i])))
    ensures var t := Apply(cfg, s, OfSlot(i, CutStep(s.slots[i])));
            || !NoError(t, c)
            || (Doomable(t, i, c) && SlotWeight(t.slots[i]) < SlotWeight(s.slots[i]))
  {
    var a := CutStep(s.slots[i]);
    assert SlotSane(cfg, Cancelled(s), s.jobs, s.slots[i]);
    if !MovesJob(a) {
      SlotStepFrame(cfg, s, i, a);
      SlotStepLocal(cfg, s, i, a);
      SlotStepLighter(cfg, s, i, a);
      NoResultAppears(cfg, s, i);
    }
  }

  lemma NoResultAppears(cfg: Config, s: State, i: nat)
    requires i < |s.slots| && !HasResult(s.slots[i].phase) && Holds(s.slots[i].phase).Some?
    requires SlotSane(cfg, Cancelled(s), s.jobs, s.slots[i])
    requires SlotEnabled(s, i, CutStep(s.slots[i])) && !MovesJob(CutStep(s.slots[i]))
    ensures !HasResult(SlotApply(cfg, s, i, CutStep(s.slots[i])).slots[i].phase)
  {
  }

  lemma RunFromStep(cfg: Config, s: State, a: Action, states: seq<State>, actions: seq<Action>)
    requires Enabled(cfg, s, a) && RunFrom(cfg, Apply(cfg, s, a), states, actions)
    ensures RunFrom(cfg, s, [s] + states, [a] + actions)
    ensures ([s] + states)[|[a] + actions|] == states[|actions|]
  {
    var states', actions' := [s] + states, [a] + actions;
    forall n | 0 <= n < |actions'| ensures Step(cfg, states'[n], actions'[n], states'[n + 1]) {
      if n > 0 { assert Step(cfg, states[n - 1], actions[n - 1], states[n - 1 + 1]); }
    }
  }

  /** A run on which a call whose slot has no result for it yet gets an error. */
  lemma {:induction false} ErrorRun(cfg: Config, s: State, i: nat, c: JobId)
    returns (states: seq<State>, actions: seq<Action>)
    requires WfConfig(cfg) && FullInv(cfg, s) && Doomable(s, i, c)
    ensures RunFrom(cfg, s, states, actions)
    ensures !NoError(states[|actions|], c)
    decreases SlotWeight(s.slots[i])
  {
    var a := OfSlot(i, CutStep(s.slots[i]));
    CutStepEnabled(cfg, s, i, c);
    CutStepCuts(cfg, s, i, c);
    StepFull(cfg, s, a);
    var t := Apply(cfg, s, a);
    if !NoError(t, c) {
      states, actions := [t], [];
    } else {
      states, actions := ErrorRun(cfg, t, i, c);
    }
    RunFromStep(cfg, s, a, states, actions);
    states, actions := [s] + states, [a] + actions;
  }

  /** A call in a slot of a cancelled pool is sure of its result if and only if its
      slot already has it: do has returned one and it has yet to be sent. Any other
      call, whether waiting for a worker, about to be written or being read, can
      still be cut short by the cancel. */
  lemma SureOfResultExactly(cfg: Config, s: State, i: nat, c: JobId)
    requires WfConfig(cfg) && Reachable(cfg, s) && Cancelled(s)
    requires i < |s.slots| && Holds(s.slots[i].phase) == Some(c)
    ensures SureOfResult(cfg, s, c) <==> HasResult(s.slots[i].phase)
  {
    ReachableFull(cfg, s);
    assert SlotPlaced(s, i) && JobSane(cfg, s.jobs[c]);
    if HasResult(s.slots[i].phase) {
      var out := s.slots[i].phase.out;
      forall states: seq<State>, actions: seq<Action> | RunFrom(cfg, s, states, actions)
        ensures NoError(states[|actions|], c)
      {
        RunFromBound(cfg, states, actions, |actions|, i, c, out);
      }
    } else {
      var states, actions := ErrorRun(cfg, s, i, c);
    }
  }
}
