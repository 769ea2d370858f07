/** internal/metrics/metrics.go: the collector of one process, and its report. */
module Metrics {
  import opened Prelude
  import opened TxEngine
  import opened Actions
  import opened Percentiles

  datatype Quantiles = Quantiles(p50: int, p95: int, p99: int)

  datatype GasStats = GasStats(average: real, p95: int)

  /** report.Result. Durations are nanoseconds; rates are exact. */
  datatype Report = Report(
    scenarioName: string,
    duration: int,
    total: int,
    throughput: real,
    successRate: real,
    rpcLatency: Quantiles,
    txLatency: Quantiles,
    gas: GasStats,
    reverted: int,
    nonceErrors: int,
    rpcErrors: int)

  // ----- Classification --------------------------------------------------------------------------

  const NONCE_ERROR := "nonce_error"
  const RPC_ERROR := "rpc_error"
  const TIMEOUT := "timeout"

  function ClassifyError(message: string): string {
    if IsNonceError(message) then NONCE_ERROR
    else if Contains(message, "not confirmed within") then TIMEOUT
    else RPC_ERROR
  }

  const SUBMIT_PREFIX := "txengine: submit: "

  /** Every Send that resyncs is reported as a nonce error and every refused Send that is reported
      as one had resynced: the text Send puts before the node's message neither hides nor
      completes the phrase both sides look for. */
  lemma ReportedNonceErrorsResynced(message: string)
    ensures ClassifyError("txengine: submit: " + message) == "nonce_error" <==> IsNonceError(message)
  {
    PrefixKeeps(message, TOO_LOW);
    PrefixKeeps(message, TOO_HIGH);
  }

  lemma PrefixKeeps(message: string, phrase: string)
    requires phrase == TOO_LOW || phrase == TOO_HIGH
    ensures Contains(SUBMIT_PREFIX + message, phrase) <==> Contains(message, phrase)
  {
    var whole, n := SUBMIT_PREFIX + message, |SUBMIT_PREFIX|;
    if Contains(message, phrase) {
      var i :| 0 <= i <= |message| - |phrase| && OccursAt(message, phrase, i);
      OccursBehind(SUBMIT_PREFIX, message, phrase, i);
    }
    if Contains(whole, phrase) {
      var i :| 0 <= i <= |whole| - |phrase| && OccursAt(whole, phrase, i);
      if i < n {
        StartsElsewhere(whole, phrase, i);
      }
      OccursBehind(SUBMIT_PREFIX, message, phrase, i - n);
    }
  }

  lemma OccursBehind(prefix: string, s: string, phrase: string, i: nat)
    ensures OccursAt(prefix + s, phrase, |prefix| + i) <==> OccursAt(s, phrase, i)
  {
    if i + |phrase| <= |s| {
      assert (prefix + s)[|prefix| + i..|prefix| + i + |phrase|] == s[i..i + |phrase|];
    }
  }

  /** No 'n' of the prefix is followed by an 'o'. */
  lemma StartsElsewhere(whole: string, phrase: string, i: nat)
    requires phrase == TOO_LOW || phrase == TOO_HIGH
    requires SUBMIT_PREFIX <= whole && i < |SUBMIT_PREFIX| && i + |phrase| <= |whole|
    ensures !OccursAt(whole, phrase, i)
  {
    assert phrase[0] == 'n' && phrase[1] == 'o';
    var w := whole[i..i + |phrase|];
    assert w[0] == whole[i] == SUBMIT_PREFIX[i] && w[1] == whole[i + 1];
    if i == 3 || i == 6 {
      assert whole[i + 1] == SUBMIT_PREFIX[i + 1] != 'o';
    } else {
      assert SUBMIT_PREFIX[i] != 'n';
    }
  }

  // ----- The collector ---------------------------------------------------------------------------

  datatype Event = StepDone(res: ActionResult, err: Option<string>) | OtherError(kind: string)

  /** The collector's counters and samples. */
  datatype Tally = Tally(
    success: nat,
    reverted: nat,
    errors: map<string, nat>,
    submit: seq<int>,
    confirm: seq<int>,
    gas: seq<int>)

  const EMPTY := Tally(0, 0, map[], [], [], [])

  function Bump(errors: map<string, nat>, kind: string): map<string, nat> {
    errors[kind := (if kind in errors then errors[kind] else 0) + 1]
  }

  function Recorded(t: Tally, e: Event): Tally {
    match e
    case OtherError(kind) => t.(errors := Bump(t.errors, kind))
    case StepDone(res, err) =>
      var u := t.(
        submit := if res.submitLatency > 0 then t.submit + [res.submitLatency] else t.submit,
        confirm := if res.confirmLatency > 0 then t.confirm + [res.confirmLatency] else t.confirm,
        gas := if res.gasUsed > 0 then t.gas + [res.gasUsed] else t.gas);
      if err.Some? then u.(errors := Bump(u.errors, ClassifyError(err.value)))
      else if res.revertReason != "" then u.(reverted := u.reverted + 1)
      else if res.success then u.(success := u.success + 1)
      else u
  }

  function TallyOf(history: seq<Event>): Tally {
    if history == [] then EMPTY
    else Recorded(TallyOf(history[..|history| - 1]), history[|history| - 1])
  }

  function QuantilesOf(samples: seq<int>): Quantiles {
    if samples == [] then Quantiles(0, 0, 0)
    else Quantiles(PercentileOf(samples, 50), PercentileOf(samples, 95), PercentileOf(samples, 99))
  }

  function GasStatsOf(samples: seq<int>): GasStats {
    if samples == [] then GasStats(0.0, 0)
    else GasStats(Average(SortedCopy(samples)), PercentileOf(samples, 95))
  }

  /** Each reported latency is the least value that the stated share of the samples does not
      exceed, and they are in order. */
  lemma QuantilesRank(samples: seq<int>, m: int)
    requires samples != []
    ensures var q := QuantilesOf(samples);
      && (q.p50 <= m <==> CountAtMost(samples, m) > |samples| * 50 / 100)
      && (q.p95 <= m <==> CountAtMost(samples, m) > |samples| * 95 / 100)
      && (q.p99 <= m <==> CountAtMost(samples, m) > |samples| * 99 / 100)
      && q.p50 <= q.p95 <= q.p99
      && q.p50 in samples && q.p95 in samples && q.p99 in samples
  {
    var q := QuantilesOf(samples);
    PercentileRank(samples, 50, m);
    PercentileRank(samples, 95, m);
    PercentileRank(samples, 99, m);
    PercentileRank(samples, 50, q.p95);
    PercentileRank(samples, 95, q.p95);
    PercentileRank(samples, 95, q.p99);
    PercentileRank(samples, 99, q.p99);
  }

  lemma GasStatsRank(samples: seq<int>, m: int)
    requires samples != []
    ensures GasStatsOf(samples).average == Sum(samples) as real / |samples| as real
    ensures GasStatsOf(samples).p95 <= m <==> CountAtMost(samples, m) > |samples| * 95 / 100
  {
    SortedCopySorts(samples);
    AveragePermuted(SortedCopy(samples), samples);
    PercentileRank(samples, 95, m);
  }

  ghost function SumValues(m: map<string, nat>): nat
    decreases |m|
  {
    if m == map[] then 0
    else
      var k :| k in m;
      m[k] + SumValues(m - {k})
  }

  /** The sum does not depend on the order in which the map is walked. */
  lemma {:induction false} SumValuesAny(m: map<string, nat>, k: string)
    requires k in m
    ensures SumValues(m) == m[k] + SumValues(m - {k})
    decreases |m|
  {
    var j :| j in m && SumValues(m) == m[j] + SumValues(m - {j});
    if j != k {
      SumValuesAny(m - {j}, k);
      SumValuesAny(m - {k}, j);
      assert m - {j} - {k} == m - {k} - {j};
    }
  }

  function Count(errors: map<string, nat>, kind: string): nat {
    if kind in errors then errors[kind] else 0
  }

  function SuccessRate(success: nat, total: nat): real {
    if total > 0 then success as real / total as real * 100.0 else 0.0
  }

  const SECOND := 1_000_000_000.0

  /** Per second; durations are nanoseconds. */
  function Throughput(total: int, elapsed: int): real {
    if elapsed > 0 then total as real / (elapsed as real / SECOND) else 0.0
  }

  ghost function SnapshotOf(t: Tally, name: string, elapsed: int): Report {
    var total := t.success + t.reverted + SumValues(t.errors);
    Report(
      name,
      elapsed,
      total,
      Throughput(total, elapsed),
      SuccessRate(t.success, total),
      QuantilesOf(t.submit),
      QuantilesOf(t.confirm),
      GasStatsOf(t.gas),
      t.reverted,
      Count(t.errors, NONCE_ERROR),
      Count(t.errors, RPC_ERROR))
  }

  method ComputeGasStats(samples: seq<int>) returns (g: GasStats)
    ensures g == GasStatsOf(samples)
  {
    if samples == [] {
      return GasStats(0.0, 0);
    }
    var sorted := SortedCopy(samples);
    SortedCopySorts(samples);
    var sum := SumOf(sorted);
    return GasStats(sum as real / |sorted| as real, Percentile(sorted, 95));
  }

  method SumOf(samples: seq<int>) returns (sum: int)
    ensures sum == Sum(samples)
  {
    sum := 0;
    for i := 0 to |samples|
      invariant sum == Sum(samples[..i])
    {
      assert samples[..i + 1] == samples[..i] + [samples[i]];
      SumSnoc(samples[..i], samples[i]);
      sum := sum + samples[i];
    }
    assert samples[..|samples|] == samples;
  }

  method SumErrors(errors: map<string, nat>) returns (total: nat)
    ensures total == SumValues(errors)
  {
    total := 0;
    var left := errors;
    while left != map[]
      invariant total + SumValues(left) == SumValues(errors)
      decreases |left|
    {
      var kind :| kind in left;
      SumValuesAny(left, kind);
      total := total + left[kind];
      left := left - {kind};
    }
  }

  /** Every method runs under the collector's mutex, so it is one atomic step. */
  class Collector {
    var successSteps: nat
    var revertedSteps: nat
    var errorsByKind: map<string, nat>
    var submitLatencies: seq<int>
    var confirmLatencies: seq<int>
    var gasUsed: seq<int>

    constructor ()
      ensures Contents() == EMPTY
    {
      successSteps, revertedSteps, errorsByKind := 0, 0, map[];
      submitLatencies, confirmLatencies, gasUsed := [], [], [];
    }

    ghost function Contents(): Tally
      reads this
    {
      Tally(successSteps, revertedSteps, errorsByKind, submitLatencies, confirmLatencies, gasUsed)
    }

    method RecordStep(res: ActionResult, err: Option<string>)
      modifies this
      ensures Contents() == Recorded(old(Contents()), StepDone(res, err))
    {
      if res.submitLatency > 0 {
        submitLatencies := submitLatencies + [res.submitLatency];
      }
      if res.confirmLatency > 0 {
        confirmLatencies := confirmLatencies + [res.confirmLatency];
      }
      if res.gasUsed > 0 {
        gasUsed := gasUsed + [res.gasUsed];
      }
      if err.Some? {
        Increment(ClassifyError(err.value));
      } else if res.revertReason != "" {
        revertedSteps := revertedSteps + 1;
      } else if res.success {
        successSteps := successSteps + 1;
      }
    }

    method RecordError(kind: string)
      modifies this
      ensures Contents() == Recorded(old(Contents()), OtherError(kind))
    {
      Increment(kind);
    }

    method Increment(kind: string)
      modifies this`errorsByKind
      ensures errorsByKind == Bump(old(errorsByKind), kind)
    {
      var n := if kind in errorsByKind then errorsByKind[kind] else 0;
      errorsByKind := errorsByKind[kind := n + 1];
    }

    method Snapshot(name: string, elapsed: int) returns (r: Report)
      ensures r == SnapshotOf(Contents(), name, elapsed)
    {
      var failed := SumErrors(errorsByKind);
      var total := successSteps + revertedSteps + failed;
      var successRate := 0.0;
      if total > 0 {
        successRate := successSteps as real / total as real * 100.0;
      }
      var throughput := 0.0;
      if elapsed > 0 {
        throughput := total as real / (elapsed as real / SECOND);
      }
      var gas := ComputeGasStats(gasUsed);
      return Report(name, elapsed, total, throughput, successRate,
                    QuantilesOf(submitLatencies), QuantilesOf(confirmLatencies), gas,
                    revertedSteps, Count(errorsByKind, NONCE_ERROR), Count(errorsByKind, RPC_ERROR));
    }
  }

  // ----- What a history amounts to, without regard to its order ------------------------------------

  /** The events of a history by kind, and its samples, as multisets. */
  datatype Summary = Summary(
    success: nat,
    reverted: nat,
    errors: multiset<string>,
    submit: multiset<int>,
    confirm: multiset<int>,
    gas: multiset<int>)

  const NOTHING := Summary(0, 0, multiset{}, multiset{}, multiset{}, multiset{})

  function Positive(x: int): multiset<int> {
    if x > 0 then multiset{x} else multiset{}
  }

  function SummaryOfEvent(e: Event): Summary {
    match e
    case OtherError(kind) => NOTHING.(errors := multiset{kind})
    case StepDone(res, err) =>
      Summary(
        if err.None? && res.revertReason == "" && res.success then 1 else 0,
        if err.None? && res.revertReason != "" then 1 else 0,
        if err.Some? then multiset{ClassifyError(err.value)} else multiset{},
        Positive(res.submitLatency),
        Positive(res.confirmLatency),
        Positive(res.gasUsed))
  }

  function Plus(a: Summary, b: Summary): Summary {
    Summary(a.success + b.success, a.reverted + b.reverted, a.errors + b.errors,
            a.submit + b.submit, a.confirm + b.confirm, a.gas + b.gas)
  }

  function SummaryOf(history: seq<Event>): Summary {
    if history == [] then NOTHING else Plus(SummaryOfEvent(history[0]), SummaryOf(history[1..]))
  }

  lemma PlusNothing(a: Summary)
    ensures Plus(NOTHING, a) == a
  {
  }

  lemma PlusSwap(a: Summary, b: Summary, c: Summary)
    ensures Plus(a, Plus(b, c)) == Plus(b, Plus(a, c))
  {
  }

  lemma PlusAssociates(a: Summary, b: Summary, c: Summary)
    ensures Plus(Plus(a, b), c) == Plus(a, Plus(b, c))
  {
  }

  lemma {:induction false} SummaryConcat(a: seq<Event>, b: seq<Event>)
    ensures SummaryOf(a + b) == Plus(SummaryOf(a), SummaryOf(b))
  {
    if a == [] {
      assert a + b == b;
      PlusNothing(SummaryOf(b));
    } else {
      var e, rest := a[0], a[1..];
      assert (a + b)[1..] == rest + b;
      SummaryConcat(rest, b);
      PlusAssociates(SummaryOfEvent(e), SummaryOf(rest), SummaryOf(b));
    }
  }

  lemma SummaryOne(e: Event)
    ensures SummaryOf([e]) == SummaryOfEvent(e)
  {
    assert [e][1..] == [];
  }

  lemma {:induction false} SummaryPermuted(a: seq<Event>, b: seq<Event>)
    requires multiset(a) == multiset(b)
    ensures SummaryOf(a) == SummaryOf(b)
    decreases |a|
  {
    if a == [] {
      SameLength(a, b);
    } else {
      var i := TakeOut(a, b);
      SummaryPermuted(a[1..], b[..i] + b[i + 1..]);
      SummaryConcat(b[..i], b[i + 1..]);
      SummaryConcat(b[..i], [b[i]] + b[i + 1..]);
      assert ([b[i]] + b[i + 1..])[1..] == b[i + 1..];
      PlusSwap(SummaryOf(b[..i]), SummaryOfEvent(b[i]), SummaryOf(b[i + 1..]));
    }
  }

  /** The collector holds a summary of its history: each error kind with its number of events, and
      exactly the positive samples. */
  ghost predicate Holds(t: Tally, s: Summary) {
    && t.success == s.success && t.reverted == s.reverted
    && HoldsErrors(t.errors, s.errors)
    && multiset(t.submit) == s.submit && multiset(t.confirm) == s.confirm && multiset(t.gas) == s.gas
  }

  ghost predicate HoldsErrors(errors: map<string, nat>, kinds: multiset<string>) {
    && (forall kind :: Count(errors, kind) == kinds[kind])
    && SumValues(errors) == |kinds|
  }

  lemma BumpHolds(errors: map<string, nat>, kinds: multiset<string>, kind: string)
    requires HoldsErrors(errors, kinds)
    ensures HoldsErrors(Bump(errors, kind), kinds + multiset{kind})
  {
    BumpCounts(errors, kind);
  }

  lemma BumpCounts(errors: map<string, nat>, kind: string)
    ensures SumValues(Bump(errors, kind)) == SumValues(errors) + 1
    ensures forall k :: Count(Bump(errors, kind), k) == Count(errors, k) + if k == kind then 1 else 0
  {
    var bumped := Bump(errors, kind);
    SumValuesAny(bumped, kind);
    if kind in errors {
      SumValuesAny(errors, kind);
      assert bumped - {kind} == errors - {kind};
    } else {
      assert bumped - {kind} == errors;
    }
  }

  lemma SummarySnoc(history: seq<Event>, e: Event)
    ensures SummaryOf(history + [e]) == Plus(SummaryOf(history), SummaryOfEvent(e))
  {
    SummaryConcat(history, [e]);
    SummaryOne(e);
  }

  lemma TallySnoc(history: seq<Event>, e: Event)
    ensures TallyOf(history + [e]) == Recorded(TallyOf(history), e)
  {
    assert (history + [e])[..|history|] == history;
  }

  lemma HoldsSnoc(history: seq<Event>, e: Event)
    requires Holds(TallyOf(history), SummaryOf(history))
    ensures Holds(TallyOf(history + [e]), SummaryOf(history + [e]))
  {
    RecordHolds(TallyOf(history), SummaryOf(history), e);
    TallySnoc(history, e);
    SummarySnoc(history, e);
  }

  lemma EmptyHolds()
    ensures Holds(EMPTY, NOTHING)
  {
  }

  lemma {:induction false} TallyHolds(history: seq<Event>)
    ensures Holds(TallyOf(history), SummaryOf(history))
  {
    if history == [] {
      EmptyHolds();
    } else {
      var front, e := history[..|history| - 1], history[|history| - 1];
      TallyHolds(front);
      HoldsSnoc(front, e);
      assert history == front + [e];
    }
  }

  lemma RecordHolds(t: Tally, s: Summary, e: Event)
    requires Holds(t, s)
    ensures Holds(Recorded(t, e), Plus(s, SummaryOfEvent(e)))
  {
    RecordSamples(t, e);
    if e.OtherError? {
      BumpHolds(t.errors, s.errors, e.kind);
    } else if e.err.Some? {
      BumpHolds(t.errors, s.errors, ClassifyError(e.err.value));
    } else {
      assert s.errors + multiset{} == s.errors;
    }
  }

  lemma RecordSamples(t: Tally, e: Event)
    ensures var u, s := Recorded(t, e), SummaryOfEvent(e);
      && multiset(u.submit) == multiset(t.submit) + s.submit
      && multiset(u.confirm) == multiset(t.confirm) + s.confirm
      && multiset(u.gas) == multiset(t.gas) + s.gas
  {
    if e.StepDone? {
      AppendPositive(t.submit, e.res.submitLatency);
      AppendPositive(t.confirm, e.res.confirmLatency);
      AppendPositive(t.gas, e.res.gasUsed);
    }
  }

  lemma AppendPositive(samples: seq<int>, x: int)
    ensures multiset(if x > 0 then samples + [x] else samples) == multiset(samples) + Positive(x)
  {
  }

  predicate Counted(e: Event) {
    e.OtherError? || e.err.Some? || e.res.revertReason != "" || e.res.success
  }

  function CountedEvents(history: seq<Event>): nat {
    if history == [] then 0 else (if Counted(history[0]) then 1 else 0) + CountedEvents(history[1..])
  }

  function Total(s: Summary): nat {
    s.success + s.reverted + |s.errors|
  }

  /** A snapshot's total is the number of events of the history but for the steps that neither
      failed nor reverted nor succeeded, which are counted nowhere. */
  lemma {:induction false} TotalCounts(history: seq<Event>)
    ensures Total(SummaryOf(history)) == CountedEvents(history)
  {
    if history != [] {
      TotalCounts(history[1..]);
    }
  }

  lemma {:induction false} SnapshotCounts(history: seq<Event>, name: string, elapsed: int)
    ensures var total := SnapshotOf(TallyOf(history), name, elapsed).total;
      && total == CountedEvents(history) <= |history|
      && (total == |history| <==> forall e :: e in history ==> Counted(e))
  {
    TallyTotals(history);
    TotalCounts(history);
    CountedAtMost(history);
  }

  lemma TallyTotals(history: seq<Event>)
    ensures var t := TallyOf(history);
      t.success + t.reverted + SumValues(t.errors) == Total(SummaryOf(history))
  {
    TallyHolds(history);
  }

  lemma {:induction false} CountedAtMost(history: seq<Event>)
    ensures CountedEvents(history) <= |history|
    ensures CountedEvents(history) == |history| <==> forall e :: e in history ==> Counted(e)
  {
    if history != [] {
      CountedAtMost(history[1..]);
      assert forall e :: e in history <==> e == history[0] || e in history[1..];
    }
  }

  // ----- What a report says about a history -----------------------------------------------------------

  predicate FailedSaying(e: Event, phrase: string) {
    e.StepDone? && e.err.Some? && Contains(e.err.value, phrase)
  }

  predicate IsNonceFailure(e: Event) {
    e == OtherError("nonce_error") || FailedSaying(e, "nonce too low") || FailedSaying(e, "nonce too high")
  }

  predicate IsTimeout(e: Event) {
    || e == OtherError("timeout")
    || (e.StepDone? && !IsNonceFailure(e) && FailedSaying(e, "not confirmed within"))
  }

  predicate IsRpcError(e: Event) {
    || e == OtherError("rpc_error")
    || (e.StepDone? && e.err.Some? && !IsNonceFailure(e) && !IsTimeout(e))
  }

  predicate IsRevert(e: Event) {
    e.StepDone? && e.err.None? && e.res.revertReason != ""
  }

  predicate IsSuccess(e: Event) {
    e.StepDone? && e.err.None? && e.res.revertReason == "" && e.res.success
  }

  function CountWhere(history: seq<Event>, p: Event -> bool): nat {
    if history == [] then 0 else (if p(history[0]) then 1 else 0) + CountWhere(history[1..], p)
  }

  lemma ClassifyErrorSays(message: string)
    ensures var nonce := Contains(message, "nonce too low") || Contains(message, "nonce too high");
      var late := Contains(message, "not confirmed within");
      ClassifyError(message) == if nonce then "nonce_error" else if late then "timeout" else "rpc_error"
  {
  }

  lemma KindsDiffer()
    ensures "nonce_error" != "timeout" && "nonce_error" != "rpc_error" && "timeout" != "rpc_error"
  {
    assert |"nonce_error"| == 11 && |"timeout"| == 7 && |"rpc_error"| == 9;
  }

  lemma KindCounts(e: Event)
    ensures var errors := SummaryOfEvent(e).errors;
      && errors["nonce_error"] == (if IsNonceFailure(e) then 1 else 0)
      && errors["timeout"] == (if IsTimeout(e) then 1 else 0)
      && errors["rpc_error"] == (if IsRpcError(e) then 1 else 0)
  {
    KindsDiffer();
    if e.StepDone? && e.err.Some? {
      ClassifyErrorSays(e.err.value);
      assert SummaryOfEvent(e).errors == multiset{ClassifyError(e.err.value)};
    }
  }

  lemma {:induction false} SummaryCounts(history: seq<Event>)
    ensures var s := SummaryOf(history);
      && s.success == CountWhere(history, IsSuccess) && s.reverted == CountWhere(history, IsRevert)
      && s.errors["nonce_error"] == CountWhere(history, IsNonceFailure)
      && s.errors["timeout"] == CountWhere(history, IsTimeout)
      && s.errors["rpc_error"] == CountWhere(history, IsRpcError)
  {
    if history != [] {
      SummaryCounts(history[1..]);
      KindCounts(history[0]);
    }
  }

  datatype Series = Submits | Confirms | Gas

  function SamplesOf(t: Tally, series: Series): seq<int> {
    match series
    case Submits => t.submit
    case Confirms => t.confirm
    case Gas => t.gas
  }

  function Measured(e: Event, series: Series): int {
    if e.OtherError? then 0
    else match series
      case Submits => e.res.submitLatency
      case Confirms => e.res.confirmLatency
      case Gas => e.res.gasUsed
  }

  /** The positive measurements, in the order in which the steps were recorded. */
  function Measurements(history: seq<Event>, series: Series): seq<int> {
    if history == [] then []
    else
      var x := Measured(history[0], series);
      (if x > 0 then [x] else []) + Measurements(history[1..], series)
  }

  lemma {:induction false} MeasurementsSnoc(history: seq<Event>, e: Event, series: Series)
    ensures Measurements(history + [e], series)
         == Measurements(history, series) + if Measured(e, series) > 0 then [Measured(e, series)] else []
  {
    if history == [] {
      assert [e][1..] == [];
    } else {
      assert (history + [e])[1..] == history[1..] + [e];
      MeasurementsSnoc(history[1..], e, series);
    }
  }

  lemma RecordedSamples(t: Tally, e: Event, series: Series)
    ensures SamplesOf(Recorded(t, e), series)
         == SamplesOf(t, series) + if Measured(e, series) > 0 then [Measured(e, series)] else []
  {
  }

  lemma SamplesSnoc(history: seq<Event>, e: Event, series: Series)
    requires SamplesOf(TallyOf(history), series) == Measurements(history, series)
    ensures SamplesOf(TallyOf(history + [e]), series) == Measurements(history + [e], series)
  {
    MeasurementsSnoc(history, e, series);
    TallySnoc(history, e);
    RecordedSamples(TallyOf(history), e, series);
  }

  lemma {:induction false} TallyMeasures(history: seq<Event>, series: Series)
    ensures SamplesOf(TallyOf(history), series) == Measurements(history, series)
  {
    if history != [] {
      var front, e := history[..|history| - 1], history[|history| - 1];
      TallyMeasures(front, series);
      SamplesSnoc(front, e, series);
      assert history == front + [e];
    }
  }

  lemma TallySays(t: Tally, s: Summary, name: string, elapsed: int)
    requires Holds(t, s)
    ensures var r := SnapshotOf(t, name, elapsed);
      && r.scenarioName == name && r.duration == elapsed
      && r.reverted == s.reverted
      && r.nonceErrors == s.errors["nonce_error"] && r.rpcErrors == s.errors["rpc_error"]
      && Count(t.errors, "timeout") == s.errors["timeout"]
      && r.total >= 0 && r.successRate == SuccessRate(s.success, r.total)
      && r.throughput == Throughput(r.total, elapsed)
  {
  }

  /** Event by event, what the collector's counters and a report's numbers stand for. */
  lemma {:induction false} SnapshotSays(history: seq<Event>, name: string, elapsed: int)
    ensures var r := SnapshotOf(TallyOf(history), name, elapsed);
      && r.scenarioName == name && r.duration == elapsed
      && r.reverted == CountWhere(history, IsRevert)
      && r.nonceErrors == CountWhere(history, IsNonceFailure)
      && r.rpcErrors == CountWhere(history, IsRpcError)
      && Count(TallyOf(history).errors, "timeout") == CountWhere(history, IsTimeout)
      && r.total >= 0 && r.successRate == SuccessRate(CountWhere(history, IsSuccess), r.total)
      && r.throughput == Throughput(r.total, elapsed)
  {
    TallyHolds(history);
    SummaryCounts(history);
    TallySays(TallyOf(history), SummaryOf(history), name, elapsed);
  }

  /** The latencies and the gas statistics are those of the positive measurements. */
  lemma {:induction false} StatisticsSay(history: seq<Event>, name: string, elapsed: int)
    ensures var r := SnapshotOf(TallyOf(history), name, elapsed);
      && r.rpcLatency == QuantilesOf(Measurements(history, Submits))
      && r.txLatency == QuantilesOf(Measurements(history, Confirms))
      && r.gas == GasStatsOf(Measurements(history, Gas))
  {
    TallyMeasures(history, Submits);
    TallyMeasures(history, Confirms);
    TallyMeasures(history, Gas);
  }

  /** Without samples there are no latencies and no gas statistics. */
  lemma NoSamplesNoStatistics()
    ensures QuantilesOf([]) == Quantiles(0, 0, 0) && GasStatsOf([]) == GasStats(0.0, 0)
  {
  }

  /** The success rate is in percent, and zero if there is nothing to rate. */
  lemma RateTimesTotal(success: nat, total: nat)
    requires success <= total
    ensures SuccessRate(success, total) * total as real == 100.0 * success as real
    ensures total == 0 ==> SuccessRate(success, total) == 0.0
  {
  }

  /** Throughput is per second of a time given in nanoseconds, and zero if no time has passed. */
  lemma PerSecond(total: int, elapsed: int)
    ensures elapsed > 0 ==> Throughput(total, elapsed) * elapsed as real == total as real * 1_000_000_000.0
    ensures elapsed <= 0 ==> Throughput(total, elapsed) == 0.0
  {
    if elapsed > 0 {
      assert Throughput(total, elapsed) * (elapsed as real / SECOND) == total as real;
    }
  }
}
