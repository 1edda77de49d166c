/** Book-keeping invariants of the pool: processes, busy slots, affinity counters,
    and the order of affinity-routed jobs. */
module PoolLedger {
  import opened PoolInvariant
  import opened PoolMachine
  import opened Protocol
  import opened Sums
  import opened Wrappers

  // ---------- Processes ----------

  ghost function Itself(n: nat): nat { n }

  ghost function Live(slot: Slot): nat { if slot.worker.Some? then 1 else 0 }

  ghost predicate WorkerOwned(s: State, i: nat)
    requires i < |s.slots|
  {
    s.slots[i].worker.Some? ==>
      var pid := s.slots[i].worker.value.pid;
      pid < |s.waits| && s.waits[pid] == 0 && pid in s.hist.owner && s.hist.owner[pid] == i
  }

  ghost predicate ProcessOwned(s: State, pid: nat)
    requires pid < |s.waits|
  {
    && s.waits[pid] <= 1
    && pid in s.hist.owner
    && s.hist.owner[pid] < |s.slots|
    && (s.waits[pid] == 0 ==>
          var w := s.slots[s.hist.owner[pid]].worker;
          w.Some? && w.value.pid == pid)
  }

  /** A started process is unreaped exactly while it is the worker of one slot. */
  ghost predicate ProcessesOwned(s: State) {
    && (forall i :: 0 <= i < |s.slots| ==> WorkerOwned(s, i))
    && (forall pid :: 0 <= pid < |s.waits| ==> ProcessOwned(s, pid))
    && Sum(s.waits, Itself) + Sum(s.slots, Live) == |s.waits|
  }

  predicate Reaps(a: SlotAction) { a.ReapFailedStart? || a.KillWorker? || a.CloseWorker? }

  lemma ReapStepProcesses(cfg: Config, s: State, i: nat, a: SlotAction)
    requires ProcessesOwned(s) && i < |s.slots| && SlotEnabled(s, i, a) && Reaps(a)
    ensures ProcessesOwned(SlotApply(cfg, s, i, a))
  {
    var t := SlotApply(cfg, s, i, a);
    assert WorkerOwned(s, i);
    SumUpdate(s.slots, i, t.slots[i], Live);
    if s.slots[i].worker.Some? {
      var pid := s.slots[i].worker.value.pid;
      SumUpdate(s.waits, pid, s.waits[pid] + 1, Itself);
    }
    forall k | 0 <= k < |t.slots| ensures WorkerOwned(t, k) { assert WorkerOwned(s, k); }
    forall pid | 0 <= pid < |t.waits| ensures ProcessOwned(t, pid) { assert ProcessOwned(s, pid); }
  }

  lemma StartStepProcesses(cfg: Config, s: State, i: nat)
    requires ProcessesOwned(s) && i < |s.slots| && SlotEnabled(s, i, StartOk) && s.slots[i].worker.None?
    ensures ProcessesOwned(SlotApply(cfg, s, i, StartOk))
  {
    var t := SlotApply(cfg, s, i, StartOk);
    SumUpdate(s.slots, i, t.slots[i], Live);
    SumAppend(s.waits, 0, Itself);
    forall k | 0 <= k < |t.slots| ensures WorkerOwned(t, k) { assert WorkerOwned(s, k); }
    forall pid | 0 <= pid < |t.waits| ensures ProcessOwned(t, pid) {
      if pid < |s.waits| { assert ProcessOwned(s, pid); }
    }
  }

  /** The worker of a slot, by process id. */
  function PidOf(slot: Slot): Option<nat> {
    if slot.worker.Some? then Some(slot.worker.value.pid) else None
  }

  lemma KeptProcesses(s: State, t: State)
    requires ProcessesOwned(s) && t.waits == s.waits && t.hist.owner == s.hist.owner && |t.slots| == |s.slots|
    requires forall i :: 0 <= i < |s.slots| ==> PidOf(t.slots[i]) == PidOf(s.slots[i])
    ensures ProcessesOwned(t)
  {
    SameLive(s.slots, t.slots);
    forall k | 0 <= k < |t.slots| ensures WorkerOwned(t, k) {
      assert WorkerOwned(s, k) && PidOf(t.slots[k]) == PidOf(s.slots[k]);
    }
    forall pid | 0 <= pid < |t.waits| ensures ProcessOwned(t, pid) {
      assert ProcessOwned(s, pid);
      assert PidOf(t.slots[s.hist.owner[pid]]) == PidOf(s.slots[s.hist.owner[pid]]);
    }
  }

  lemma {:induction false} SameLive(a: seq<Slot>, b: seq<Slot>)
    requires |a| == |b| && forall i :: 0 <= i < |a| ==> PidOf(a[i]) == PidOf(b[i])
    ensures Sum(a, Live) == Sum(b, Live)
  {
    if a != [] {
      SameLive(a[..|a| - 1], b[..|b| - 1]);
      assert PidOf(a[|a| - 1]) == PidOf(b[|b| - 1]);
    }
  }

  lemma SlotStepProcesses(cfg: Config, s: State, i: nat, a: SlotAction)
    requires ProcessesOwned(s) && SlotsSane(cfg, s) && i < |s.slots| && SlotEnabled(s, i, a)
    ensures ProcessesOwned(SlotApply(cfg, s, i, a))
  {
    assert SlotSane(cfg, Cancelled(s), s.jobs, s.slots[i]);
    if Reaps(a) {
      ReapStepProcesses(cfg, s, i, a);
    } else if a.StartOk? {
      StartStepProcesses(cfg, s, i);
    } else {
      QuietStepKeepsPids(cfg, s, i, a);
      KeptProcesses(s, SlotApply(cfg, s, i, a));
    }
  }

  lemma QuietStepKeepsPids(cfg: Config, s: State, i: nat, a: SlotAction)
    requires i < |s.slots| && SlotEnabled(s, i, a) && !Reaps(a) && !a.StartOk?
    ensures var t := SlotApply(cfg, s, i, a);
            && t.waits == s.waits && t.hist.owner == s.hist.owner
            && t.slots == s.slots[i := t.slots[i]] && PidOf(t.slots[i]) == PidOf(s.slots[i])
  {
  }

  // ---------- Busy slots ----------

  ghost function Busy(slot: Slot): nat { if InCall(slot.phase) then 1 else 0 }

  ghost predicate BusyCounted(s: State) {
    s.busy == Sum(s.slots, Busy)
  }

  lemma SlotStepBusy(cfg: Config, s: State, i: nat, a: SlotAction)
    requires BusyCounted(s) && i < |s.slots| && SlotEnabled(s, i, a)
    ensures BusyCounted(SlotApply(cfg, s, i, a))
  {
    var t := SlotApply(cfg, s, i, a);
    SumUpdate(s.slots, i, t.slots[i], Busy);
    BusyDelta(cfg, s, i, a);
  }

  lemma BusyDelta(cfg: Config, s: State, i: nat, a: SlotAction)
    requires i < |s.slots| && SlotEnabled(s, i, a)
    ensures var t := SlotApply(cfg, s, i, a);
            t.slots == s.slots[i := t.slots[i]] && t.busy + Busy(s.slots[i]) == s.busy + Busy(t.slots[i])
  {
  }

  // ---------- Affinity counters ----------

  ghost function AtHit(job: Job): nat { if job.pc.CountHit? then 1 else 0 }
  ghost function AtSpill(job: Job): nat { if job.pc.CountSpill? then 1 else 0 }
  ghost function SentByAffinity(job: Job): nat { if job.route.ByAffinity? then 1 else 0 }
  ghost function SentBySpill(job: Job): nat { if job.route.BySpill? then 1 else 0 }

  ghost predicate HitsCounted(s: State) {
    && s.hits + Sum(s.jobs, AtHit) == Sum(s.jobs, SentByAffinity)
    && s.spills + Sum(s.jobs, AtSpill) == Sum(s.jobs, SentBySpill)
  }

  /** Effect of replacing one job on the four sums. */
  lemma JobSums(jobs: seq<Job>, c: JobId, job: Job)
    requires c < |jobs|
    ensures Sum(jobs[c := job], AtHit) + AtHit(jobs[c]) == Sum(jobs, AtHit) + AtHit(job)
    ensures Sum(jobs[c := job], AtSpill) + AtSpill(jobs[c]) == Sum(jobs, AtSpill) + AtSpill(job)
    ensures Sum(jobs[c := job], SentByAffinity) + SentByAffinity(jobs[c])
            == Sum(jobs, SentByAffinity) + SentByAffinity(job)
    ensures Sum(jobs[c := job], SentBySpill) + SentBySpill(jobs[c]) == Sum(jobs, SentBySpill) + SentBySpill(job)
  {
    SumUpdate(jobs, c, job, AtHit);
    SumUpdate(jobs, c, job, AtSpill);
    SumUpdate(jobs, c, job, SentByAffinity);
    SumUpdate(jobs, c, job, SentBySpill);
  }

  lemma CallerStepHits(cfg: Config, s: State, c: JobId, a: CallerAction)
    requires HitsCounted(s) && c < |s.jobs| && JobSane(cfg, s.jobs[c]) && CallerEnabled(cfg, s, c, a)
    ensures HitsCounted(CallerApply(cfg, s, c, a))
  {
    JobSums(s.jobs, c, CallerApply(cfg, s, c, a).jobs[c]);
  }

  lemma ReplacedJobHits(s: State, t: State, c: JobId)
    requires HitsCounted(s) && c < |s.jobs| && |t.jobs| == |s.jobs| && t.jobs == s.jobs[c := t.jobs[c]]
    requires t.jobs[c].pc == s.jobs[c].pc && t.jobs[c].route == s.jobs[c].route
    requires t.hits == s.hits && t.spills == s.spills
    ensures HitsCounted(t)
  {
    JobSums(s.jobs, c, t.jobs[c]);
  }

  lemma SlotStepHits(cfg: Config, s: State, i: nat, a: SlotAction)
    requires HitsCounted(s) && i < |s.slots| && SlotEnabled(s, i, a)
    ensures HitsCounted(SlotApply(cfg, s, i, a))
  {
    var t := SlotApply(cfg, s, i, a);
    if MovesJob(a) {
      ReplacedJobHits(s, t, if a.TakeBuffered? then s.bufs[i][0] else s.slots[i].phase.job);
    } else {
      SlotStepLocal(cfg, s, i, a);
      assert t.hits == s.hits && t.spills == s.spills;
    }
  }

  lemma ShutStepHits(s: State, a: ShutAction)
    requires HitsCounted(s) && ShutEnabled(s, a)
    ensures HitsCounted(ShutApply(s, a))
  {
    var t := ShutApply(s, a);
    if a.DrainTake? || a.DrainSend? {
      ReplacedJobHits(s, t, if a.DrainTake? then s.bufs[s.shut.k][0] else s.shut.job);
    }
  }

  // ---------- Order of affinity-routed jobs ----------

  ghost predicate NoRepeats<T>(s: seq<T>) {
    forall m, n :: 0 <= m < n < |s| ==> s[m] != s[n]
  }

  ghost predicate SlotOrder(cfg: Config, s: State, k: nat)
    requires k < |s.bufs|
  {
    var sent := Log(s.hist.sent, k);
    var taken := Log(s.hist.taken, k);
    && sent == taken + s.bufs[k]
    && NoRepeats(sent)
    && (forall n :: 0 <= n < |sent| ==> sent[n] < |s.jobs| && s.jobs[sent[n]].route.ByAffinity?
                                        && cfg.route(s.jobs[sent[n]].req.key) == k)
    && (forall n :: 0 <= n < |taken| ==> s.jobs[sent[n]].loc in {InSlot(k), InDrain, Answered})
    && (forall n :: 0 <= n < |taken| - 1 ==> s.jobs[sent[n]].loc == Answered)
  }

  ghost predicate JobLogged(cfg: Config, s: State, c: JobId)
    requires c < |s.jobs|
  {
    s.jobs[c].route.ByAffinity? ==> c in Log(s.hist.sent, cfg.route(s.jobs[c].req.key))
  }

  ghost predicate InOrder(cfg: Config, s: State) {
    && (forall k :: 0 <= k < |s.bufs| ==> SlotOrder(cfg, s, k))
    && (forall c :: 0 <= c < |s.jobs| ==> JobLogged(cfg, s, c))
  }

  /** Jobs may change, but not out of the order of any slot. */
  ghost predicate JobsAdvance(s: State, t: State) {
    && |s.jobs| <= |t.jobs|
    && forall c :: 0 <= c < |s.jobs| ==>
         && t.jobs[c].req == s.jobs[c].req
         && t.jobs[c].route == s.jobs[c].route
         && (t.jobs[c].loc == s.jobs[c].loc
             || (t.jobs[c].loc == Answered && (s.jobs[c].loc.InSlot? || s.jobs[c].loc.InDrain?)))
  }

  lemma AdvanceKeepsOrder(cfg: Config, s: State, t: State)
    requires InOrder(cfg, s) && JobsAdvance(s, t) && t.bufs == s.bufs
    requires t.hist.sent == s.hist.sent && t.hist.taken == s.hist.taken
    requires forall c :: |s.jobs| <= c < |t.jobs| ==> t.jobs[c].route.NoRoute?
    ensures InOrder(cfg, t)
  {
    forall k | 0 <= k < |t.bufs| ensures SlotOrder(cfg, t, k) { AdvanceKeepsSlotOrder(cfg, s, t, k); }
    forall c | 0 <= c < |t.jobs| ensures JobLogged(cfg, t, c) { if c < |s.jobs| { assert JobLogged(cfg, s, c); } }
  }

  lemma AdvanceKeepsSlotOrder(cfg: Config, s: State, t: State, k: nat)
    requires k < |s.bufs| && |t.bufs| == |s.bufs| && SlotOrder(cfg, s, k) && JobsAdvance(s, t)
    requires Log(t.hist.sent, k) == Log(s.hist.sent, k) && Log(t.hist.taken, k) == Log(s.hist.taken, k)
    requires t.bufs[k] == s.bufs[k]
    ensures SlotOrder(cfg, t, k)
  {
    var sent := Log(s.hist.sent, k);
    var taken := Log(s.hist.taken, k);
    forall n | 0 <= n < |taken| ensures sent[n] == taken[n] && taken[n] < |s.jobs| {}
  }

  /** Taking the buffered job of slot k, by its slot or by the drain. */
  lemma TakeKeepsOrder(cfg: Config, s: State, t: State, k: nat, c: JobId, to: Loc)
    requires InOrder(cfg, s) && k < |s.bufs| && s.bufs[k] == [c] && c < |s.jobs|
    requires to == InSlot(k) || to == InDrain
    requires forall x :: 0 <= x < |s.jobs| ==> s.jobs[x].loc != InSlot(k) && s.jobs[x].loc != InDrain
    requires t.bufs == s.bufs[k := []] && t.jobs == s.jobs[c := s.jobs[c].(loc := to)]
    requires t.hist.sent == s.hist.sent && t.hist.taken == Logged(s.hist.taken, k, c)
    ensures InOrder(cfg, t)
  {
    var sent := Log(s.hist.sent, k);
    var taken := Log(s.hist.taken, k);
    assert SlotOrder(cfg, s, k);
    forall n | 0 <= n < |taken| ensures taken[n] == sent[n] && taken[n] != c && s.jobs[taken[n]].loc == Answered {
      assert sent[|taken|] == c;
    }
    assert SlotOrder(cfg, t, k) by {
      assert Log(t.hist.taken, k) == taken + [c];
      assert sent == taken + [c] + [];
    }
    forall m | 0 <= m < |t.bufs| && m != k ensures SlotOrder(cfg, t, m) {
      assert SlotOrder(cfg, s, m);
      var sm := Log(s.hist.sent, m);
      assert sent[|taken|] == c;
      assert cfg.route(s.jobs[c].req.key) == k;
      forall n | 0 <= n < |sm| ensures sm[n] != c {}
      var tm := Log(s.hist.taken, m);
      forall n | 0 <= n < |tm| ensures tm[n] == sm[n] {}
    }
    forall x | 0 <= x < |t.jobs| ensures JobLogged(cfg, t, x) { assert JobLogged(cfg, s, x); }
  }

  /** An affinity send, seen through its effect: job c joins the log and the buffer
      of slot k. */
  ghost predicate SendsTo(s: State, t: State, c: JobId, k: nat) {
    && c < |s.jobs| == |t.jobs| && k < |s.bufs| == |t.bufs|
    && s.bufs[k] == [] && t.bufs == s.bufs[k := [c]]
    && s.jobs[c].route.NoRoute? && t.jobs[c].route.ByAffinity? && t.jobs[c].req == s.jobs[c].req
    && (forall x :: 0 <= x < |s.jobs| && x != c ==> t.jobs[x] == s.jobs[x])
    && t.hist.taken == s.hist.taken && t.hist.sent == Logged(s.hist.sent, k, c)
  }

  lemma SendKeepsOwnOrder(cfg: Config, s: State, t: State, c: JobId, k: nat)
    requires SendsTo(s, t, c, k) && SlotOrder(cfg, s, k) && cfg.route(s.jobs[c].req.key) == k
    ensures SlotOrder(cfg, t, k)
  {
    var before, taken := Log(s.hist.sent, k), Log(s.hist.taken, k);
    assert Log(t.hist.sent, k) == before + [c];
    assert before == taken;
    forall n | 0 <= n < |before| ensures before[n] != c && t.jobs[before[n]] == s.jobs[before[n]] {
      assert s.jobs[before[n]].route.ByAffinity?;
    }
  }

  lemma SendStepSends(cfg: Config, s: State, c: JobId)
    requires Shape(cfg, s) && c < |s.jobs| && JobSane(cfg, s.jobs[c]) && CallerEnabled(cfg, s, c, SendAffinity)
    requires |s.bufs[cfg.route(s.jobs[c].req.key)]| < 1
    ensures SendsTo(s, CallerApply(cfg, s, c, SendAffinity), c, cfg.route(s.jobs[c].req.key))
  {
    var k := cfg.route(s.jobs[c].req.key);
    assert s.bufs[k] + [c] == [c];
  }

  lemma SendKeepsOrder(cfg: Config, s: State, c: JobId)
    requires InOrder(cfg, s) && Shape(cfg, s) && JobsSane(cfg, s)
    requires c < |s.jobs| && CallerEnabled(cfg, s, c, SendAffinity)
    ensures InOrder(cfg, CallerApply(cfg, s, c, SendAffinity))
  {
    var t := CallerApply(cfg, s, c, SendAffinity);
    var k := cfg.route(s.jobs[c].req.key);
    assert JobSane(cfg, s.jobs[c]);
    if |s.bufs[k]| < 1 {
      SendStepSends(cfg, s, c);
      forall m | 0 <= m < |t.bufs| ensures SlotOrder(cfg, t, m) {
        assert SlotOrder(cfg, s, m);
        if m == k { SendKeepsOwnOrder(cfg, s, t, c, k); }
      }
      forall x | 0 <= x < |t.jobs| ensures JobLogged(cfg, t, x) {
        assert JobLogged(cfg, s, x);
      }
    } else {
      AdvanceKeepsOrder(cfg, s, t);
    }
  }

  lemma UnsentStepKeepsOrder(cfg: Config, s: State, c: JobId, a: CallerAction)
    requires InOrder(cfg, s) && JobsSane(cfg, s) && c < |s.jobs| && CallerEnabled(cfg, s, c, a) && a.Meet?
    ensures InOrder(cfg, CallerApply(cfg, s, c, a))
  {
    var t := CallerApply(cfg, s, c, a);
    assert JobSane(cfg, s.jobs[c]);
    forall m | 0 <= m < |t.bufs| ensures SlotOrder(cfg, t, m) {
      assert SlotOrder(cfg, s, m);
      var sm := Log(s.hist.sent, m);
      var tm := Log(s.hist.taken, m);
      forall n | 0 <= n < |sm| ensures sm[n] != c {}
      forall n | 0 <= n < |tm| ensures tm[n] == sm[n] {}
    }
    forall x | 0 <= x < |t.jobs| ensures JobLogged(cfg, t, x) { assert JobLogged(cfg, s, x); }
  }

  lemma CallerStepOrder(cfg: Config, s: State, c: JobId, a: CallerAction)
    requires InOrder(cfg, s) && Shape(cfg, s) && Placed(s) && JobsSane(cfg, s)
    requires c < |s.jobs| && CallerEnabled(cfg, s, c, a)
    ensures InOrder(cfg, CallerApply(cfg, s, c, a))
  {
    match a
    case SendAffinity => SendKeepsOrder(cfg, s, c);
    case Meet(_) => UnsentStepKeepsOrder(cfg, s, c, a);
    case _ =>
      assert JobsAdvance(s, CallerApply(cfg, s, c, a));
      AdvanceKeepsOrder(cfg, s, CallerApply(cfg, s, c, a));
  }

  lemma TakeStepOrder(cfg: Config, s: State, i: nat)
    requires InOrder(cfg, s) && Shape(cfg, s) && Placed(s) && i < |s.slots| && SlotEnabled(s, i, TakeBuffered)
    requires !s.shut.DrainReply?
    ensures InOrder(cfg, SlotApply(cfg, s, i, TakeBuffered))
  {
    var c := s.bufs[i][0];
    assert SlotPlaced(s, i) && BufferPlaced(s, i);
    assert s.bufs[i] == [c] && s.bufs[i][1..] == [];
    forall x | 0 <= x < |s.jobs| ensures s.jobs[x].loc != InSlot(i) && s.jobs[x].loc != InDrain {
      assert JobPlaced(s, x);
    }
    TakeKeepsOrder(cfg, s, SlotApply(cfg, s, i, TakeBuffered), i, c, InSlot(i));
  }

  lemma SlotStepOrder(cfg: Config, s: State, i: nat, a: SlotAction)
    requires InOrder(cfg, s) && Shape(cfg, s) && Placed(s) && i < |s.slots| && SlotEnabled(s, i, a)
    requires s.shut.DrainReply? ==> s.slots[i].phase.Exited?
    ensures InOrder(cfg, SlotApply(cfg, s, i, a))
  {
    if a.TakeBuffered? {
      TakeStepOrder(cfg, s, i);
    } else {
      assert SlotPlaced(s, i);
      OtherSlotStepAdvances(cfg, s, i, a);
      AdvanceKeepsOrder(cfg, s, SlotApply(cfg, s, i, a));
    }
  }

  lemma OtherSlotStepAdvances(cfg: Config, s: State, i: nat, a: SlotAction)
    requires i < |s.slots| && SlotEnabled(s, i, a) && !a.TakeBuffered? && SlotPlaced(s, i)
    ensures var t := SlotApply(cfg, s, i, a);
            && JobsAdvance(s, t) && |t.jobs| == |s.jobs| && t.bufs == s.bufs
            && t.hist.sent == s.hist.sent && t.hist.taken == s.hist.taken
  {
    if MovesJob(a) { ReplyStepAdvances(cfg, s, i, a); } else { SlotStepLocal(cfg, s, i, a); }
  }

  lemma ReplyStepAdvances(cfg: Config, s: State, i: nat, a: SlotAction)
    requires i < |s.slots| && SlotEnabled(s, i, a) && (a.SendReply? || a.SendUnavailable?) && SlotPlaced(s, i)
    ensures var t := SlotApply(cfg, s, i, a); JobsAdvance(s, t) && |t.jobs| == |s.jobs| && t.bufs == s.bufs
  {
  }

  lemma ShutStepOrder(cfg: Config, s: State, a: ShutAction)
    requires InOrder(cfg, s) && Shape(cfg, s) && Placed(s) && ShutEnabled(s, a)
    requires s.shut.Drain? ==> forall i :: 0 <= i < |s.slots| ==> s.slots[i].phase.Exited?
    ensures InOrder(cfg, ShutApply(s, a))
  {
    var t := ShutApply(s, a);
    if a.DrainTake? {
      var k := s.shut.k;
      var c := s.bufs[k][0];
      assert BufferPlaced(s, k);
      assert s.bufs[k] == [c] && s.bufs[k][1..] == [];
      forall x | 0 <= x < |s.jobs| ensures s.jobs[x].loc != InSlot(k) && s.jobs[x].loc != InDrain {
        assert JobPlaced(s, x);
      }
      TakeKeepsOrder(cfg, s, t, k, c, InDrain);
    } else {
      assert JobsAdvance(s, t);
      AdvanceKeepsOrder(cfg, s, t);
    }
  }
}
