/** The lifetime counters of /metrics (metrics.go). Every method holds the mutex, so
    any interleaving of handlers is a sequence of these calls. */
module MetricsCounters {
  import opened Handler
  import opened Wrappers

  /** A snapshot of all counters. `min` is +Inf (None) until the first sample;
      durations are real numbers. */
  datatype Counters = Counters(
    requestsTotal: nat,
    requestsFailed: nat,
    tokensInput: int,
    tokensSaved: int,
    tokensAfter: int,
    coldStarts: nat,
    sum: real,
    min: Option<real>,
    max: real,
    count: nat,
    byProvider: map<string, nat>,
    byModel: map<string, nat>,
    byOutcome: map<string, nat>,
    inboundTotal: nat,
    inboundCompleted: nat,
    inboundActive: nat)

  const ZEROS := Counters(0, 0, 0, 0, 0, 0, 0.0, None, 0.0, 0, map[], map[], map[], 0, 0, 0)

  const ERROR := "error"

  function OutcomeOf(reason: Reason): string {
    match reason
    case ReasonModify => "modify"
    case ReasonNoop => "noop"
    case ReasonError => ERROR
    case ReasonReadError => "read_error"
    case ReasonDecodeError => "decode_error"
    case ReasonReject => "reject_encoding"
    case ReasonPassthrough => "passthrough"
  }

  function LabelOrUnknown(v: string): string { if v == "" then "unknown" else v }

  function CountOf(m: map<string, nat>, k: string): nat { if k in m then m[k] else 0 }

  function Bump(m: map<string, nat>, k: string): map<string, nat> { m[k := CountOf(m, k) + 1] }

  function Started(c: Counters): Counters {
    c.(inboundTotal := c.inboundTotal + 1, inboundActive := c.inboundActive + 1)
  }

  function Finished(c: Counters): Counters {
    c.(inboundCompleted := c.inboundCompleted + 1,
       inboundActive := if c.inboundActive > 0 then c.inboundActive - 1 else 0)
  }

  function Overhead(c: Counters, durMs: real): Counters {
    c.(sum := c.sum + durMs,
       count := c.count + 1,
       min := if c.min.None? || durMs < c.min.value then Some(durMs) else c.min,
       max := if durMs > c.max then durMs else c.max)
  }

  function Counted(c: Counters, outcome: string, provider: string, model: string): Counters {
    c.(requestsTotal := c.requestsTotal + 1,
       byOutcome := Bump(c.byOutcome, outcome),
       byProvider := Bump(c.byProvider, provider),
       byModel := Bump(c.byModel, model),
       requestsFailed := c.requestsFailed + if outcome == ERROR then 1 else 0)
  }

  function Tokens(c: Counters, s: Summary): Counters {
    c.(tokensInput := c.tokensInput + s.tokensBefore,
       tokensSaved := c.tokensSaved + s.tokensSaved,
       tokensAfter := c.tokensAfter + s.tokensAfter,
       coldStarts := c.coldStarts + if s.cold then 1 else 0)
  }

  function Recorded(c: Counters, s: Summary, durMs: real): Counters {
    Overhead(Tokens(Counted(c, OutcomeOf(s.reason), LabelOrUnknown(s.provider), LabelOrUnknown(s.model)), s), durMs)
  }

  class Metrics {
    var requestsTotal: nat
    var requestsFailed: nat
    var tokensInput: int
    var tokensSaved: int
    var tokensAfter: int
    var coldStarts: nat
    var overheadSumMs: real
    var overheadMinMs: Option<real>
    var overheadMaxMs: real
    var overheadCount: nat
    var byProvider: map<string, nat>
    var byModel: map<string, nat>
    var byOutcome: map<string, nat>
    var inboundTotal: nat
    var inboundCompleted: nat
    var inboundActive: nat

    function View(): Counters
      reads this
    {
      Counters(requestsTotal, requestsFailed, tokensInput, tokensSaved, tokensAfter, coldStarts,
               overheadSumMs, overheadMinMs, overheadMaxMs, overheadCount,
               byProvider, byModel, byOutcome, inboundTotal, inboundCompleted, inboundActive)
    }

    /** The maps sum to the requests recorded, failures are the "error" outcome, the
        mean overhead lies between its extremes, and every request seen is either
        completed or in flight. */
    ghost predicate Valid()
      reads this
    {
      Balanced(View())
    }

    constructor ()
      ensures Valid() && View() == ZEROS
    {
      requestsTotal, requestsFailed, tokensInput, tokensSaved, tokensAfter, coldStarts := 0, 0, 0, 0, 0, 0;
      overheadSumMs, overheadMinMs, overheadMaxMs, overheadCount := 0.0, None, 0.0, 0;
      byProvider, byModel, byOutcome := map[], map[], map[];
      inboundTotal, inboundCompleted, inboundActive := 0, 0, 0;
      new;
      assert View() == ZEROS;
      ZerosBalanced();
    }

    method InboundStart()
      requires Valid()
      modifies this
      ensures Valid() && View() == Started(old(View()))
      ensures inboundActive == old(inboundActive) + 1 && inboundCompleted == old(inboundCompleted)
      ensures inboundTotal == old(inboundTotal) + 1
    {
      InboundKeepsBalance(View());
      inboundTotal := inboundTotal + 1;
      inboundActive := inboundActive + 1;
    }

    /** The guard keeps the gauge from going negative; it hides, but does not mend, a
        request that ends without having started. */
    method InboundDone()
      requires Valid()
      modifies this
      ensures View() == Finished(old(View()))
      ensures Valid() <==> old(inboundActive) > 0
      ensures inboundCompleted == old(inboundCompleted) + 1 && inboundTotal == old(inboundTotal)
      ensures old(inboundActive) > 0 ==> inboundActive == old(inboundActive) - 1
      ensures old(inboundActive) == 0 ==> inboundActive == 0
    {
      InboundKeepsBalance(View());
      inboundCompleted := inboundCompleted + 1;
      if inboundActive > 0 {
        inboundActive := inboundActive - 1;
      }
    }

    /** record, in the order of its three groups of counters. */
    method Record(s: Summary, durMs: real)
      requires Valid()
      modifies this
      ensures Valid() && View() == Recorded(old(View()), s, durMs)
      ensures Total(byOutcome) == Total(byProvider) == Total(byModel) == requestsTotal == old(requestsTotal) + 1
      ensures requestsFailed == old(requestsFailed) + if s.reason == ReasonError then 1 else 0
      ensures coldStarts == old(coldStarts) + if s.cold then 1 else 0
      ensures tokensInput == old(tokensInput) + s.tokensBefore
      ensures tokensSaved == old(tokensSaved) + s.tokensSaved
      ensures tokensAfter == old(tokensAfter) + s.tokensAfter
      ensures overheadSumMs == old(overheadSumMs) + durMs && overheadCount == old(overheadCount) + 1
      ensures overheadMinMs == Some(durMs) || overheadMinMs == old(overheadMinMs)
      ensures overheadMaxMs == durMs || overheadMaxMs == old(overheadMaxMs)
      ensures overheadMinMs.Some? && overheadMinMs.value <= durMs <= overheadMaxMs
      ensures inboundTotal == old(inboundTotal) && inboundActive == old(inboundActive)
      ensures inboundCompleted == old(inboundCompleted)
    {
      RecordKeepsBalance(View(), s, durMs);
      CountRequest(OutcomeOf(s.reason), LabelOrUnknown(s.provider), LabelOrUnknown(s.model));
      AddTokens(s);
      AddOverhead(durMs);
    }

    method CountRequest(outcome: string, provider: string, model: string)
      modifies this
      ensures View() == Counted(old(View()), outcome, provider, model)
    {
      requestsTotal := requestsTotal + 1;
      byOutcome := Bump(byOutcome, outcome);
      byProvider := Bump(byProvider, provider);
      byModel := Bump(byModel, model);
      if outcome == ERROR {
        requestsFailed := requestsFailed + 1;
      }
    }

    method AddTokens(s: Summary)
      modifies this
      ensures View() == Tokens(old(View()), s)
    {
      tokensInput := tokensInput + s.tokensBefore;
      tokensSaved := tokensSaved + s.tokensSaved;
      tokensAfter := tokensAfter + s.tokensAfter;
      if s.cold {
        coldStarts := coldStarts + 1;
      }
    }

    method AddOverhead(durMs: real)
      modifies this
      ensures View() == Overhead(old(View()), durMs)
    {
      overheadSumMs := overheadSumMs + durMs;
      overheadCount := overheadCount + 1;
      if overheadMinMs.None? || durMs < overheadMinMs.value {
        overheadMinMs := Some(durMs);
      }
      if durMs > overheadMaxMs {
        overheadMaxMs := durMs;
      }
    }
  }

  // ---------- What the counters always satisfy ----------

  ghost function Total(m: map<string, nat>): nat
  {
    if m == map[] then 0
    else
      var k :| k in m;
      m[k] + Total(m - {k})
  }

  /** The total does not depend on which key is taken first. */
  lemma {:induction false} TotalTakes(m: map<string, nat>, k: string)
    requires k in m
    ensures Total(m) == m[k] + Total(m - {k})
    decreases m
  {
    var j :| j in m && Total(m) == m[j] + Total(m - {j});
    if j != k {
      TotalTakes(m - {j}, k);
      TotalTakes(m - {k}, j);
      assert m - {j} - {k} == m - {k} - {j};
    }
  }

  lemma TotalBump(m: map<string, nat>, k: string)
    ensures Total(Bump(m, k)) == Total(m) + 1
  {
    var n := Bump(m, k);
    TotalTakes(n, k);
    if k in m {
      TotalTakes(m, k);
      assert n - {k} == m - {k};
    } else {
      assert n - {k} == m;
    }
  }

  ghost predicate MapsBalanced(c: Counters) {
    && Total(c.byOutcome) == c.requestsTotal
    && Total(c.byProvider) == c.requestsTotal
    && Total(c.byModel) == c.requestsTotal
    && c.requestsFailed == CountOf(c.byOutcome, ERROR)
  }

  /** a, n times over. */
  ghost function Times(a: real, n: nat): real {
    if n == 0 then 0.0 else a + Times(a, n - 1)
  }

  lemma {:induction false} TimesIsProduct(a: real, n: nat)
    ensures Times(a, n) == a * (n as real)
  {
    if n > 0 {
      TimesIsProduct(a, n - 1);
      var m := (n - 1) as real;
      assert n as real == m + 1.0;
      assert a * (m + 1.0) == a * m + a;
    }
  }

  /** The mean overhead lies between the extremes. */
  lemma MeanBetweenExtremes(c: Counters)
    requires Balanced(c)
    ensures c.min.Some? ==> c.min.value * (c.count as real) <= c.sum
    ensures c.sum <= c.max * (c.count as real)
  {
    TimesIsProduct(c.max, c.count);
    if c.min.Some? { TimesIsProduct(c.min.value, c.count); }
  }

  ghost predicate OverheadBalanced(c: Counters) {
    && (c.count > 0 <==> c.min.Some?)
    && (c.count == 0 ==> c.sum == 0.0)
    && (c.min.Some? ==> Times(c.min.value, c.count) <= c.sum)
    && c.sum <= Times(c.max, c.count)
  }

  ghost predicate Balanced(c: Counters) {
    && MapsBalanced(c)
    && OverheadBalanced(c)
    && c.count == c.requestsTotal
    && c.inboundTotal == c.inboundCompleted + c.inboundActive
  }

  lemma {:induction false} Scales(a: real, b: real, n: nat)
    requires a <= b
    ensures Times(a, n) <= Times(b, n)
  {
    if n > 0 { Scales(a, b, n - 1); }
  }

  lemma OverheadKeepsBalance(c: Counters, durMs: real)
    requires OverheadBalanced(c)
    ensures OverheadBalanced(Overhead(c, durMs))
  {
    var t := Overhead(c, durMs);
    Scales(c.max, t.max, c.count);
    if c.min.Some? {
      Scales(t.min.value, c.min.value, c.count);
    }
  }

  lemma CountedKeepsBalance(c: Counters, outcome: string, provider: string, model: string)
    requires MapsBalanced(c)
    ensures MapsBalanced(Counted(c, outcome, provider, model))
  {
    TotalBump(c.byOutcome, outcome);
    TotalBump(c.byProvider, provider);
    TotalBump(c.byModel, model);
  }

  /** Recording a call keeps the maps summing to the total, the failures equal to the
      "error" outcome, and the mean overhead between its extremes. */
  lemma RecordKeepsBalance(c: Counters, s: Summary, durMs: real)
    requires Balanced(c)
    ensures Balanced(Recorded(c, s, durMs))
  {
    var outcome, provider, model := OutcomeOf(s.reason), LabelOrUnknown(s.provider), LabelOrUnknown(s.model);
    CountedKeepsBalance(c, outcome, provider, model);
    OverheadKeepsBalance(Tokens(Counted(c, outcome, provider, model), s), durMs);
  }

  /** So do the two inbound calls, provided one is in flight when it ends. */
  lemma InboundKeepsBalance(c: Counters)
    requires Balanced(c)
    ensures Balanced(Started(c))
    ensures Balanced(Finished(c)) <==> c.inboundActive > 0
  {
  }

  lemma ZerosBalanced()
    ensures Balanced(ZEROS)
  {
  }
}
