/** The hook requests of a run, and what the counters have of them (handler.go,
    metrics.go). */
module Visits {
  import opened Handler
  import opened MetricsCounters
  import opened SettingsValues
  import opened Sums
  import opened Wrappers

  datatype Stage = Entered | AtPool | Answered | Logged | Left

  /** One HTTP request to the hook. `job` is its Compress call's, once made. A 405 has
      no summary and is never recorded. */
  datatype Visit = Visit(
    arrival: Arrival,
    stage: Stage,
    settings: Settings,
    job: Option<nat>,
    resp: Option<Response>,
    summary: Option<Summary>)

  ghost function Present(visit: Visit): nat { if visit.stage.Left? then 0 else 1 }

  predicate IsLogged(visit: Visit) { (visit.stage.Logged? || visit.stage.Left?) && visit.summary.Some? }

  ghost function WasLogged(visit: Visit): nat { if IsLogged(visit) then 1 else 0 }

  predicate IsCold(visit: Visit) { IsLogged(visit) && visit.summary.value.cold }

  ghost function ColdLogged(visit: Visit): nat { if IsCold(visit) then 1 else 0 }

  /** Logged under these labels. */
  ghost function AsOutcome(name: string): Visit -> nat {
    (visit: Visit) => if IsLogged(visit) && OutcomeOf(visit.summary.value.reason) == name then 1 else 0
  }

  ghost function AsProvider(name: string): Visit -> nat {
    (visit: Visit) => if IsLogged(visit) && LabelOrUnknown(visit.summary.value.provider) == name then 1 else 0
  }

  ghost function AsModel(name: string): Visit -> nat {
    (visit: Visit) => if IsLogged(visit) && LabelOrUnknown(visit.summary.value.model) == name then 1 else 0
  }

  ghost function Before(visit: Visit): int { if IsLogged(visit) then visit.summary.value.tokensBefore else 0 }
  ghost function Saved(visit: Visit): int { if IsLogged(visit) then visit.summary.value.tokensSaved else 0 }
  ghost function After(visit: Visit): int { if IsLogged(visit) then visit.summary.value.tokensAfter else 0 }

  /** Each label's count is the number of requests logged under it. */
  ghost predicate LabelsTallied(visits: seq<Visit>, m: Counters) {
    forall name: string ::
      && CountOf(m.byOutcome, name) == Sum(visits, AsOutcome(name))
      && CountOf(m.byProvider, name) == Sum(visits, AsProvider(name))
      && CountOf(m.byModel, name) == Sum(visits, AsModel(name))
  }

  ghost predicate TokensTallied(visits: seq<Visit>, m: Counters) {
    && m.tokensInput == SumInt(visits, Before)
    && m.tokensSaved == SumInt(visits, Saved)
    && m.tokensAfter == SumInt(visits, After)
  }

  ghost predicate RequestsTallied(visits: seq<Visit>, m: Counters) {
    && m.inboundTotal == |visits|
    && m.inboundActive == Sum(visits, Present)
    && m.requestsTotal == Sum(visits, WasLogged)
    && m.coldStarts == Sum(visits, ColdLogged)
  }

  ghost predicate Tallied(visits: seq<Visit>, m: Counters) {
    Balanced(m) && RequestsTallied(visits, m) && LabelsTallied(visits, m) && TokensTallied(visits, m)
  }

  lemma RequestSums(visits: seq<Visit>, v: nat, visit: Visit)
    requires v < |visits|
    ensures Sum(visits[v := visit], Present) + Present(visits[v]) == Sum(visits, Present) + Present(visit)
    ensures Sum(visits[v := visit], WasLogged) + WasLogged(visits[v]) == Sum(visits, WasLogged) + WasLogged(visit)
    ensures Sum(visits[v := visit], ColdLogged) + ColdLogged(visits[v]) == Sum(visits, ColdLogged) + ColdLogged(visit)
  {
    SumUpdate(visits, v, visit, Present);
    SumUpdate(visits, v, visit, WasLogged);
    SumUpdate(visits, v, visit, ColdLogged);
  }

  lemma LabelSums(visits: seq<Visit>, v: nat, visit: Visit, name: string)
    requires v < |visits|
    ensures Sum(visits[v := visit], AsOutcome(name)) + AsOutcome(name)(visits[v])
            == Sum(visits, AsOutcome(name)) + AsOutcome(name)(visit)
    ensures Sum(visits[v := visit], AsProvider(name)) + AsProvider(name)(visits[v])
            == Sum(visits, AsProvider(name)) + AsProvider(name)(visit)
    ensures Sum(visits[v := visit], AsModel(name)) + AsModel(name)(visits[v])
            == Sum(visits, AsModel(name)) + AsModel(name)(visit)
  {
    SumUpdate(visits, v, visit, AsOutcome(name));
    SumUpdate(visits, v, visit, AsProvider(name));
    SumUpdate(visits, v, visit, AsModel(name));
  }

  lemma TokenSums(visits: seq<Visit>, v: nat, visit: Visit)
    requires v < |visits|
    ensures SumInt(visits[v := visit], Before) + Before(visits[v]) == SumInt(visits, Before) + Before(visit)
    ensures SumInt(visits[v := visit], Saved) + Saved(visits[v]) == SumInt(visits, Saved) + Saved(visit)
    ensures SumInt(visits[v := visit], After) + After(visits[v]) == SumInt(visits, After) + After(visit)
  {
    SumIntUpdate(visits, v, visit, Before);
    SumIntUpdate(visits, v, visit, Saved);
    SumIntUpdate(visits, v, visit, After);
  }

  lemma EnterLabels(visits: seq<Visit>, m: Counters, visit: Visit)
    requires LabelsTallied(visits, m) && visit.stage.Entered?
    ensures LabelsTallied(visits + [visit], Started(m))
  {
    forall name: string
      ensures Sum(visits + [visit], AsOutcome(name)) == Sum(visits, AsOutcome(name))
      ensures Sum(visits + [visit], AsProvider(name)) == Sum(visits, AsProvider(name))
      ensures Sum(visits + [visit], AsModel(name)) == Sum(visits, AsModel(name))
    {
      SumAppend(visits, visit, AsOutcome(name));
      SumAppend(visits, visit, AsProvider(name));
      SumAppend(visits, visit, AsModel(name));
    }
  }

  /** A request comes in. */
  lemma EnterTallies(visits: seq<Visit>, m: Counters, visit: Visit)
    requires Tallied(visits, m) && visit.stage.Entered?
    ensures Tallied(visits + [visit], Started(m))
  {
    InboundKeepsBalance(m);
    SumAppend(visits, visit, Present);
    SumAppend(visits, visit, WasLogged);
    SumAppend(visits, visit, ColdLogged);
    SumIntAppend(visits, visit, Before);
    SumIntAppend(visits, visit, Saved);
    SumIntAppend(visits, visit, After);
    EnterLabels(visits, m, visit);
  }

  /** It goes on, and has not been logged or was before. */
  predicate SameInLog(was: Visit, now: Visit) {
    (!IsLogged(was) && !IsLogged(now)) || (IsLogged(was) && IsLogged(now) && now.summary == was.summary)
  }

  lemma KeptLabels(visits: seq<Visit>, m: Counters, n: Counters, v: nat, visit: Visit)
    requires LabelsTallied(visits, m) && v < |visits| && SameInLog(visits[v], visit)
    requires n.byOutcome == m.byOutcome && n.byProvider == m.byProvider && n.byModel == m.byModel
    ensures LabelsTallied(visits[v := visit], n)
  {
    forall name: string
      ensures Sum(visits[v := visit], AsOutcome(name)) == Sum(visits, AsOutcome(name))
      ensures Sum(visits[v := visit], AsProvider(name)) == Sum(visits, AsProvider(name))
      ensures Sum(visits[v := visit], AsModel(name)) == Sum(visits, AsModel(name))
    {
      LabelSums(visits, v, visit, name);
    }
  }

  lemma KeptTallies(visits: seq<Visit>, m: Counters, v: nat, visit: Visit)
    requires Tallied(visits, m) && v < |visits| && SameInLog(visits[v], visit)
    requires Present(visits[v]) == Present(visit)
    ensures Tallied(visits[v := visit], m)
  {
    RequestSums(visits, v, visit);
    TokenSums(visits, v, visit);
    KeptLabels(visits, m, m, v, visit);
  }

  /** It is gone. */
  lemma LeaveTallies(visits: seq<Visit>, m: Counters, v: nat, visit: Visit)
    requires Tallied(visits, m) && v < |visits| && SameInLog(visits[v], visit)
    requires !visits[v].stage.Left? && visit.stage.Left?
    ensures m.inboundActive > 0
    ensures Tallied(visits[v := visit], Finished(m))
  {
    SumMember(visits, v, Present);
    InboundKeepsBalance(m);
    RequestSums(visits, v, visit);
    TokenSums(visits, v, visit);
    KeptLabels(visits, m, Finished(m), v, visit);
  }

  lemma RecordBumps(m: Counters, s: Summary, durMs: real)
    ensures var n := Recorded(m, s, durMs);
            && n.byOutcome == Bump(m.byOutcome, OutcomeOf(s.reason))
            && n.byProvider == Bump(m.byProvider, LabelOrUnknown(s.provider))
            && n.byModel == Bump(m.byModel, LabelOrUnknown(s.model))
  {
  }

  lemma BumpCounts(m: map<string, nat>, k: string, name: string)
    ensures CountOf(Bump(m, k), name) == CountOf(m, name) + if k == name then 1 else 0
  {
  }

  lemma LogLabels(visits: seq<Visit>, m: Counters, v: nat, durMs: real)
    requires LabelsTallied(visits, m) && v < |visits| && visits[v].stage.Answered? && visits[v].summary.Some?
    ensures LabelsTallied(visits[v := visits[v].(stage := Logged)], Recorded(m, visits[v].summary.value, durMs))
  {
    var visit, s := visits[v].(stage := Logged), visits[v].summary.value;
    var n := Recorded(m, s, durMs);
    RecordBumps(m, s, durMs);
    forall name: string
      ensures CountOf(n.byOutcome, name) == Sum(visits[v := visit], AsOutcome(name))
      ensures CountOf(n.byProvider, name) == Sum(visits[v := visit], AsProvider(name))
      ensures CountOf(n.byModel, name) == Sum(visits[v := visit], AsModel(name))
    {
      LabelSums(visits, v, visit, name);
      BumpCounts(m.byOutcome, OutcomeOf(s.reason), name);
      BumpCounts(m.byProvider, LabelOrUnknown(s.provider), name);
      BumpCounts(m.byModel, LabelOrUnknown(s.model), name);
    }
  }

  /** It is recorded, under its labels. */
  lemma LogTallies(visits: seq<Visit>, m: Counters, v: nat, durMs: real)
    requires Tallied(visits, m) && v < |visits| && visits[v].stage.Answered? && visits[v].summary.Some?
    ensures Tallied(visits[v := visits[v].(stage := Logged)], Recorded(m, visits[v].summary.value, durMs))
  {
    var visit := visits[v].(stage := Logged);
    RecordKeepsBalance(m, visits[v].summary.value, durMs);
    RequestSums(visits, v, visit);
    TokenSums(visits, v, visit);
    LogLabels(visits, m, v, durMs);
  }

  lemma SumNone(w: Visit -> nat)
    ensures Sum([], w) == 0
  {
  }

  lemma SumIntNone(w: Visit -> int)
    ensures SumInt([], w) == 0
  {
  }

  lemma NoLabels(visits: seq<Visit>, m: Counters)
    requires visits == [] && m.byOutcome == map[] && m.byProvider == map[] && m.byModel == map[]
    ensures LabelsTallied(visits, m)
  {
    forall name: string
      ensures CountOf(m.byOutcome, name) == Sum(visits, AsOutcome(name))
      ensures CountOf(m.byProvider, name) == Sum(visits, AsProvider(name))
      ensures CountOf(m.byModel, name) == Sum(visits, AsModel(name))
    {
      SumNone(AsOutcome(name));
      SumNone(AsProvider(name));
      SumNone(AsModel(name));
    }
  }

  lemma NoneTallied(visits: seq<Visit>, m: Counters)
    requires visits == [] && m == ZEROS
    ensures Tallied(visits, m)
  {
    ZerosBalanced();
    SumNone(Present);
    SumNone(WasLogged);
    SumNone(ColdLogged);
    SumIntNone(Before);
    SumIntNone(Saved);
    SumIntNone(After);
    NoLabels(visits, m);
  }
}
