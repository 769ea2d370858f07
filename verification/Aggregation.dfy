/** internal/distributed/controller.go, Aggregate: one report from the workers' latest ones. */
module Aggregation {
  import opened Prelude
  import opened Percentiles
  import opened Metrics

  function MaxQuantiles(a: Quantiles, b: Quantiles): Quantiles {
    Quantiles(Max(a.p50, b.p50), Max(a.p95, b.p95), Max(a.p99, b.p99))
  }

  /** The report under construction and the success rates weighted by volume so far. */
  datatype Sums = Sums(agg: Report, weighted: real)

  const ZERO_REPORT :=
    Report("", 0, 0, 0.0, 0.0, Quantiles(0, 0, 0), Quantiles(0, 0, 0), GasStats(0.0, 0), 0, 0, 0)

  function MaxReal(a: real, b: real): real {
    if a < b then b else a
  }

  function Added(s: Sums, r: Report): Sums {
    Sums(
      Report(
        s.agg.scenarioName,
        Max(s.agg.duration, r.duration),
        s.agg.total + r.total,
        s.agg.throughput + r.throughput,
        s.agg.successRate,
        MaxQuantiles(s.agg.rpcLatency, r.rpcLatency),
        MaxQuantiles(s.agg.txLatency, r.txLatency),
        GasStats(MaxReal(s.agg.gas.average, r.gas.average), Max(s.agg.gas.p95, r.gas.p95)),
        s.agg.reverted + r.reverted,
        s.agg.nonceErrors + r.nonceErrors,
        s.agg.rpcErrors + r.rpcErrors),
      s.weighted + r.successRate * r.total as real)
  }

  function Folded(rs: seq<Report>): Sums {
    if rs == [] then Sums(ZERO_REPORT, 0.0) else Added(Folded(rs[..|rs| - 1]), rs[|rs| - 1])
  }

  function Finished(s: Sums): Report {
    if s.agg.total > 0 then s.agg.(successRate := s.weighted / s.agg.total as real) else s.agg
  }

  /** The report carries the controller's scenario name, whatever the workers call theirs. */
  function AggregateOf(name: string, rs: seq<Report>): Report {
    Finished(Folded(rs)).(scenarioName := name)
  }

  // ----- The order of the map does not matter -----------------------------------------------------

  lemma AddedCommutes(s: Sums, x: Report, y: Report)
    ensures Added(Added(s, x), y) == Added(Added(s, y), x)
  {
  }

  lemma FoldedSnoc(rs: seq<Report>, r: Report)
    ensures Folded(rs + [r]) == Added(Folded(rs), r)
  {
    assert (rs + [r])[..|rs|] == rs;
  }

  lemma {:induction false} FoldedMoves(rs: seq<Report>, i: nat)
    requires i < |rs|
    ensures Folded(rs) == Added(Folded(rs[..i] + rs[i + 1..]), rs[i])
  {
    var front, last := rs[..|rs| - 1], rs[|rs| - 1];
    assert rs == front + [last];
    FoldedSnoc(front, last);
    if i == |rs| - 1 {
      assert rs[..i] + rs[i + 1..] == front;
    } else {
      var without := front[..i] + front[i + 1..];
      FoldedMoves(front, i);
      WithoutInFront(rs, i);
      FoldedSnoc(without, last);
      AddedCommutes(Folded(without), rs[i], last);
    }
  }

  function ReportsIn(results: map<string, Report>, ids: seq<string>): (rs: seq<Report>)
    requires forall id :: id in ids ==> id in results
    ensures |rs| == |ids| && forall i :: 0 <= i < |ids| ==> rs[i] == results[ids[i]]
  {
    seq(|ids|, i requires 0 <= i < |ids| => results[ids[i]])
  }

  lemma {:induction false} FoldedPermuted(results: map<string, Report>, a: seq<string>, b: seq<string>)
    requires multiset(a) == multiset(b)
    requires (forall id :: id in a ==> id in results) && (forall id :: id in b ==> id in results)
    ensures Folded(ReportsIn(results, a)) == Folded(ReportsIn(results, b))
    decreases |a|
  {
    if a == [] {
      SameLength(a, b);
    } else {
      var i := TakeOut(a, b);
      var s, t := a[..0] + a[1..], b[..i] + b[i + 1..];
      assert s == a[1..];
      FoldedPermuted(results, s, t);
      FoldedStep(results, a, b, i);
    }
  }

  lemma FoldedStep(results: map<string, Report>, a: seq<string>, b: seq<string>, i: nat)
    requires (forall id :: id in a ==> id in results) && (forall id :: id in b ==> id in results)
    requires a != [] && i < |b| && b[i] == a[0]
    requires Folded(ReportsIn(results, a[..0] + a[1..])) == Folded(ReportsIn(results, b[..i] + b[i + 1..]))
    ensures Folded(ReportsIn(results, a)) == Folded(ReportsIn(results, b))
  {
    FoldedWithout(results, a, 0);
    FoldedWithout(results, b, i);
  }

  lemma FoldedWithout(results: map<string, Report>, ids: seq<string>, i: nat)
    requires i < |ids| && forall id :: id in ids ==> id in results
    ensures Folded(ReportsIn(results, ids))
         == Added(Folded(ReportsIn(results, ids[..i] + ids[i + 1..])), results[ids[i]])
  {
    FoldedMoves(ReportsIn(results, ids), i);
    ReportsWithout(results, ids, i);
  }

  lemma ReportsWithout(results: map<string, Report>, ids: seq<string>, i: nat)
    requires i < |ids| && forall id :: id in ids ==> id in results
    ensures var rs := ReportsIn(results, ids);
      rs[..i] + rs[i + 1..] == ReportsIn(results, ids[..i] + ids[i + 1..])
  {
    var rs, left := ReportsIn(results, ids), ids[..i] + ids[i + 1..];
    assert rs[..i] == ReportsIn(results, ids[..i]);
    assert rs[i + 1..] == ReportsIn(results, ids[i + 1..]);
    assert ReportsIn(results, left) == ReportsIn(results, ids[..i]) + ReportsIn(results, ids[i + 1..]);
  }

  ghost predicate Enumerates(ids: seq<string>, results: map<string, Report>) {
    multiset(ids) == multiset(results.Keys)
  }

  lemma EnumeratedAreKeys(ids: seq<string>, results: map<string, Report>)
    requires Enumerates(ids, results)
    ensures forall id :: id in ids ==> id in results
  {
    forall id | id in ids ensures id in results {
      assert id in multiset(results.Keys);
    }
  }

  function NameOf(scenario: Option<string>): string {
    if scenario.Some? then scenario.value else ""
  }

  /** The reports are taken in the order in which the map happens to be walked; the result is the
      same for every order. */
  method Aggregate(scenario: Option<string>, results: map<string, Report>) returns (r: Report)
    ensures r.scenarioName == if scenario.Some? then scenario.value else ""
    ensures forall ids: seq<string> :: Enumerates(ids, results) ==>
      (forall id :: id in ids ==> id in results) && r == AggregateOf(NameOf(scenario), ReportsIn(results, ids))
  {
    var sums := Sums(ZERO_REPORT, 0.0);
    ghost var ids := [];
    var left := results.Keys;
    while left != {}
      invariant left <= results.Keys && (forall id :: id in ids ==> id in results)
      invariant multiset(ids) + multiset(left) == multiset(results.Keys)
      invariant sums == Folded(ReportsIn(results, ids))
      decreases |left|
    {
      var id :| id in left;
      sums := Added(sums, results[id]);
      left := left - {id};
      ghost var more := ids + [id];
      assert ReportsIn(results, more)[..|ids|] == ReportsIn(results, ids);
      ids := more;
    }
    r := Finished(sums).(scenarioName := NameOf(scenario));
    forall other: seq<string> | Enumerates(other, results)
      ensures forall id :: id in other ==> id in results
      ensures r == AggregateOf(NameOf(scenario), ReportsIn(results, other))
    {
      EnumeratedAreKeys(other, results);
      FoldedPermuted(results, ids, other);
    }
  }

  /** `m` is the largest of the values, or zero if none of them is positive. */
  ghost predicate IsLargest(m: int, values: seq<int>) {
    && m >= 0 && (m == 0 || m in values)
    && forall i :: 0 <= i < |values| ==> values[i] <= m
  }

  datatype Field = RunTime | RpcP50 | RpcP95 | RpcP99 | TxP50 | TxP95 | TxP99 | GasP95

  function FieldOf(r: Report, f: Field): int {
    match f
    case RunTime => r.duration
    case RpcP50 => r.rpcLatency.p50
    case RpcP95 => r.rpcLatency.p95
    case RpcP99 => r.rpcLatency.p99
    case TxP50 => r.txLatency.p50
    case TxP95 => r.txLatency.p95
    case TxP99 => r.txLatency.p99
    case GasP95 => r.gas.p95
  }

  function Values(rs: seq<Report>, f: Field): seq<int> {
    seq(|rs|, i requires 0 <= i < |rs| => FieldOf(rs[i], f))
  }

  lemma ValuesSnoc(rs: seq<Report>, f: Field)
    requires rs != []
    ensures Values(rs, f) == Values(rs[..|rs| - 1], f) + [FieldOf(rs[|rs| - 1], f)]
  {
  }

  lemma LargestSnoc(m: int, values: seq<int>, x: int)
    requires IsLargest(m, values)
    ensures IsLargest(Max(m, x), values + [x])
  {
    assert forall v :: v in values + [x] <==> v in values || v == x;
  }

  /** Whatever the reports say: the aggregate's duration, latencies and gas percentile are each the
      largest of the workers' own, not their sum or any other value above. */
  lemma {:induction false} AggregateTakesLargest(name: string, rs: seq<Report>, f: Field)
    ensures IsLargest(FieldOf(AggregateOf(name, rs), f), Values(rs, f))
    ensures FieldOf(AggregateOf(name, rs), f) == FieldOf(Folded(rs).agg, f)
  {
    if rs != [] {
      var front := rs[..|rs| - 1];
      AggregateTakesLargest(name, front, f);
      ValuesSnoc(rs, f);
      LargestSnoc(FieldOf(Folded(front).agg, f), Values(front, f), FieldOf(rs[|rs| - 1], f));
    }
  }

  /** So is its gas average. */
  lemma {:induction false} AggregateTakesLargestAverage(name: string, rs: seq<Report>)
    ensures var a := AggregateOf(name, rs).gas.average;
      && a >= 0.0 && (forall i :: 0 <= i < |rs| ==> rs[i].gas.average <= a)
      && (a == 0.0 || exists i :: 0 <= i < |rs| && rs[i].gas.average == a)
  {
    if rs != [] {
      var front, r := rs[..|rs| - 1], rs[|rs| - 1];
      AggregateTakesLargestAverage(name, front);
      var a, b := AggregateOf(name, front).gas.average, AggregateOf(name, rs).gas.average;
      assert b == MaxReal(a, r.gas.average);
      if b == r.gas.average {
        assert rs[|rs| - 1].gas.average == b;
      } else if a != 0.0 {
        var i :| 0 <= i < |front| && front[i].gas.average == a;
        assert rs[i].gas.average == b;
      }
    }
  }

  // ----- Aggregating snapshots against one snapshot of everything ---------------------------------

  ghost function Snapshots(name: string, histories: seq<seq<Event>>, elapsed: seq<int>): (rs: seq<Report>)
    requires |elapsed| == |histories|
    ensures |rs| == |histories|
  {
    seq(|histories|, i requires 0 <= i < |histories| => SnapshotOf(TallyOf(histories[i]), name, elapsed[i]))
  }

  lemma SnapshotsSnoc(name: string, histories: seq<seq<Event>>, elapsed: seq<int>)
    requires |elapsed| == |histories| > 0
    ensures var n := |histories| - 1;
      Snapshots(name, histories, elapsed)[..n] == Snapshots(name, histories[..n], elapsed[..n])
  {
  }

  ghost predicate CountsMatch(r: Report, s: Summary) {
    && r.total == Total(s)
    && r.reverted == s.reverted
    && r.nonceErrors == s.errors[NONCE_ERROR]
    && r.rpcErrors == s.errors[RPC_ERROR]
  }

  lemma SnapshotMatches(history: seq<Event>, name: string, elapsed: int)
    ensures var r, s := SnapshotOf(TallyOf(history), name, elapsed), SummaryOf(history);
      && CountsMatch(r, s)
      && r.successRate == SuccessRate(s.success, Total(s))
  {
    TallyHolds(history);
  }

  /** The counts of the folded snapshots are those of all histories one after another. */
  lemma {:induction false} CountsAddUp(name: string, histories: seq<seq<Event>>, elapsed: seq<int>)
    requires |elapsed| == |histories|
    ensures var sums, all := Folded(Snapshots(name, histories, elapsed)), SummaryOf(Flatten(histories));
      && CountsMatch(sums.agg, all)
      && sums.weighted == 100.0 * all.success as real
      && sums.agg.successRate == 0.0
  {
    if histories != [] {
      var n := |histories| - 1;
      CountsAddUp(name, histories[..n], elapsed[..n]);
      SnapshotsSnoc(name, histories, elapsed);
      SummaryConcat(Flatten(histories[..n]), histories[n]);
      SnapshotMatches(histories[n], name, elapsed[n]);
      AddedMatches(Folded(Snapshots(name, histories[..n], elapsed[..n])), SummaryOf(Flatten(histories[..n])),
                   Snapshots(name, histories, elapsed)[n], SummaryOf(histories[n]));
    }
  }

  lemma AddedMatches(sums: Sums, all: Summary, r: Report, s: Summary)
    requires CountsMatch(sums.agg, all) && CountsMatch(r, s)
    requires sums.weighted == 100.0 * all.success as real
    requires r.successRate == SuccessRate(s.success, Total(s))
    ensures CountsMatch(Added(sums, r).agg, Plus(all, s))
    ensures Added(sums, r).weighted == 100.0 * Plus(all, s).success as real
  {
    RateTimesTotal(s.success, Total(s));
  }

  function SummarySamples(s: Summary, series: Series): multiset<int> {
    match series
    case Submits => s.submit
    case Confirms => s.confirm
    case Gas => s.gas
  }

  function Parts(histories: seq<seq<Event>>, series: Series): (parts: seq<seq<int>>)
    ensures |parts| == |histories|
  {
    seq(|histories|, i requires 0 <= i < |histories| => SamplesOf(TallyOf(histories[i]), series))
  }

  lemma SamplesHeld(history: seq<Event>, series: Series)
    ensures multiset(SamplesOf(TallyOf(history), series)) == SummarySamples(SummaryOf(history), series)
  {
    TallyHolds(history);
  }

  lemma SamplesAdd(a: Summary, b: Summary, series: Series)
    ensures SummarySamples(Plus(a, b), series) == SummarySamples(a, series) + SummarySamples(b, series)
  {
  }

  lemma {:induction false} PartsHoldSamples(histories: seq<seq<Event>>, series: Series)
    ensures multiset(Flatten(Parts(histories, series))) == SummarySamples(SummaryOf(Flatten(histories)), series)
  {
    if histories != [] {
      var n := |histories| - 1;
      PartsHoldSamples(histories[..n], series);
      SummaryConcat(Flatten(histories[..n]), histories[n]);
      SamplesHeld(histories[n], series);
      SamplesAdd(SummaryOf(Flatten(histories[..n])), SummaryOf(histories[n]), series);
      PartsSnoc(histories, series);
    }
  }

  lemma PartsSnoc(histories: seq<seq<Event>>, series: Series)
    requires histories != []
    ensures var n := |histories| - 1;
      Flatten(Parts(histories, series))
        == Flatten(Parts(histories[..n], series)) + SamplesOf(TallyOf(histories[n]), series)
  {
    assert Parts(histories, series)[..|histories| - 1] == Parts(histories[..|histories| - 1], series);
  }

  lemma {:induction false} MergedSamples(histories: seq<seq<Event>>, merged: seq<Event>, series: Series)
    requires multiset(merged) == multiset(Flatten(histories))
    ensures multiset(SamplesOf(TallyOf(merged), series)) == multiset(Flatten(Parts(histories, series)))
  {
    TallyHolds(merged);
    SummaryPermuted(merged, Flatten(histories));
    PartsHoldSamples(histories, series);
  }

  predicate Below(a: Quantiles, b: Quantiles) {
    a.p50 <= b.p50 && a.p95 <= b.p95 && a.p99 <= b.p99
  }

  /** The fold keeps a bound on every report it has seen. */
  lemma {:induction false} FoldBounds(rs: seq<Report>)
    ensures var agg := Folded(rs).agg;
      && Below(Quantiles(0, 0, 0), agg.rpcLatency) && Below(Quantiles(0, 0, 0), agg.txLatency)
      && agg.gas.p95 >= 0 && agg.gas.average >= 0.0
      && (forall i :: 0 <= i < |rs| ==>
          && Below(rs[i].rpcLatency, agg.rpcLatency) && Below(rs[i].txLatency, agg.txLatency)
          && rs[i].gas.p95 <= agg.gas.p95 && rs[i].gas.average <= agg.gas.average)
  {
    if rs != [] {
      var front, r := rs[..|rs| - 1], rs[|rs| - 1];
      FoldBounds(front);
      assert rs == front + [r] && Folded(rs) == Added(Folded(front), r);
    }
  }

  lemma {:induction false} QuantilesBounded(parts: seq<seq<int>>, merged: seq<int>, bound: Quantiles)
    requires multiset(merged) == multiset(Flatten(parts)) && Below(Quantiles(0, 0, 0), bound)
    requires forall i :: 0 <= i < |parts| ==> Below(QuantilesOf(parts[i]), bound)
    ensures Below(QuantilesOf(merged), bound)
  {
    forall i | 0 <= i < |parts|
      ensures PercentileOf(parts[i], 50) <= bound.p50
      ensures PercentileOf(parts[i], 95) <= bound.p95
      ensures PercentileOf(parts[i], 99) <= bound.p99
    {
      assert Below(QuantilesOf(parts[i]), bound);
    }
    MaxPercentileIsPessimistic(parts, merged, 50, bound.p50);
    MaxPercentileIsPessimistic(parts, merged, 95, bound.p95);
    MaxPercentileIsPessimistic(parts, merged, 99, bound.p99);
  }

  lemma {:induction false} GasBounded(parts: seq<seq<int>>, merged: seq<int>, bound: GasStats)
    requires multiset(merged) == multiset(Flatten(parts)) && bound.p95 >= 0 && bound.average >= 0.0
    requires forall i :: 0 <= i < |parts| ==>
      GasStatsOf(parts[i]).p95 <= bound.p95 && GasStatsOf(parts[i]).average <= bound.average
    ensures GasStatsOf(merged).p95 <= bound.p95 && GasStatsOf(merged).average <= bound.average
  {
    forall i | 0 <= i < |parts|
      ensures PercentileOf(parts[i], 95) <= bound.p95 && Average(parts[i]) <= bound.average
    {
      assert GasStatsOf(parts[i]).p95 <= bound.p95;
      SortedCopySorts(parts[i]);
      AveragePermuted(SortedCopy(parts[i]), parts[i]);
    }
    MaxPercentileIsPessimistic(parts, merged, 95, bound.p95);
    MaxAverageIsPessimistic(parts, merged, bound.average);
    SortedCopySorts(merged);
    AveragePermuted(SortedCopy(merged), merged);
  }

  /** Split the events of a run over any number of collectors in any way and let the merged
      history interleave them in any order: aggregating the collectors' snapshots gives exactly
      the counts and the success rate that one collector of the merged history reports. */
  lemma {:induction false} AggregateCountsExactly(name: string, histories: seq<seq<Event>>, elapsed: seq<int>,
                                                  merged: seq<Event>, wall: int)
    requires |elapsed| == |histories| && multiset(merged) == multiset(Flatten(histories))
    ensures var agg := AggregateOf(name, Snapshots(name, histories, elapsed));
      var one := SnapshotOf(TallyOf(merged), name, wall);
      && agg.scenarioName == one.scenarioName
      && agg.total == one.total
      && agg.reverted == one.reverted
      && agg.nonceErrors == one.nonceErrors
      && agg.rpcErrors == one.rpcErrors
      && agg.successRate == one.successRate
  {
    CountsAddUp(name, histories, elapsed);
    SummaryPermuted(merged, Flatten(histories));
    SnapshotMatches(merged, name, wall);
    FinishedMatches(Folded(Snapshots(name, histories, elapsed)), SummaryOf(merged));
  }

  lemma FinishedMatches(sums: Sums, s: Summary)
    requires CountsMatch(sums.agg, s) && sums.weighted == 100.0 * s.success as real && sums.agg.successRate == 0.0
    ensures CountsMatch(Finished(sums), s) && Finished(sums).successRate == SuccessRate(s.success, Total(s))
  {
    if Total(s) > 0 {
      SameRate(s.success, Total(s));
    }
  }

  lemma SameRate(success: nat, total: nat)
    requires total > 0
    ensures 100.0 * success as real / total as real == SuccessRate(success, total)
  {
  }

  /** In the same setting no latency percentile, gas percentile or gas average of the aggregate
      lies below what one collector of everything would report. */
  lemma {:induction false} AggregateIsPessimistic(name: string, histories: seq<seq<Event>>, elapsed: seq<int>,
                                                  merged: seq<Event>, wall: int)
    requires |elapsed| == |histories| && multiset(merged) == multiset(Flatten(histories))
    ensures var agg := AggregateOf(name, Snapshots(name, histories, elapsed));
      var one := SnapshotOf(TallyOf(merged), name, wall);
      && Below(one.rpcLatency, agg.rpcLatency)
      && Below(one.txLatency, agg.txLatency)
      && one.gas.p95 <= agg.gas.p95 && one.gas.average <= agg.gas.average
  {
    FoldBounds(Snapshots(name, histories, elapsed));
    LatenciesBounded(name, histories, elapsed, merged);
    GasStatsBounded(name, histories, elapsed, merged);
  }

  lemma LatenciesBounded(name: string, histories: seq<seq<Event>>, elapsed: seq<int>, merged: seq<Event>)
    requires |elapsed| == |histories| && multiset(merged) == multiset(Flatten(histories))
    ensures var agg, t := Folded(Snapshots(name, histories, elapsed)).agg, TallyOf(merged);
      Below(QuantilesOf(t.submit), agg.rpcLatency) && Below(QuantilesOf(t.confirm), agg.txLatency)
  {
    var rs, t := Snapshots(name, histories, elapsed), TallyOf(merged);
    var agg := Folded(rs).agg;
    FoldBounds(rs);
    MergedSamples(histories, merged, Submits);
    MergedSamples(histories, merged, Confirms);
    forall i | 0 <= i < |histories|
      ensures Below(QuantilesOf(Parts(histories, Submits)[i]), agg.rpcLatency)
      ensures Below(QuantilesOf(Parts(histories, Confirms)[i]), agg.txLatency)
    {
      assert rs[i] == SnapshotOf(TallyOf(histories[i]), name, elapsed[i]);
    }
    QuantilesBounded(Parts(histories, Submits), t.submit, agg.rpcLatency);
    QuantilesBounded(Parts(histories, Confirms), t.confirm, agg.txLatency);
  }

  lemma GasStatsBounded(name: string, histories: seq<seq<Event>>, elapsed: seq<int>, merged: seq<Event>)
    requires |elapsed| == |histories| && multiset(merged) == multiset(Flatten(histories))
    ensures var agg, one := Folded(Snapshots(name, histories, elapsed)).agg, GasStatsOf(TallyOf(merged).gas);
      one.p95 <= agg.gas.p95 && one.average <= agg.gas.average
  {
    var rs := Snapshots(name, histories, elapsed);
    var agg := Folded(rs).agg;
    FoldBounds(rs);
    MergedSamples(histories, merged, Gas);
    forall i | 0 <= i < |histories|
      ensures GasStatsOf(Parts(histories, Gas)[i]).p95 <= agg.gas.p95
      ensures GasStatsOf(Parts(histories, Gas)[i]).average <= agg.gas.average
    {
      assert rs[i] == SnapshotOf(TallyOf(histories[i]), name, elapsed[i]);
    }
    GasBounded(Parts(histories, Gas), TallyOf(merged).gas, agg.gas);
  }

  // ----- Throughput --------------------------------------------------------------------------------

  predicate Timed(r: Report, wall: int) {
    0 < r.duration <= wall && r.total >= 0 && r.throughput == Throughput(r.total, r.duration)
  }

  lemma RateFallsWithTime(total: int, elapsed: int, wall: int)
    requires total >= 0 && 0 < elapsed <= wall
    ensures Throughput(total, wall) <= Throughput(total, elapsed)
    ensures Throughput(total, wall) == Throughput(total, elapsed) <==> total == 0 || elapsed == wall
  {
    var t, e, w := total as real * SECOND, elapsed as real, wall as real;
    PerSecond(total, elapsed);
    PerSecond(total, wall);
    QuotientFalls(t, e, w);
  }

  lemma QuotientFalls(t: real, e: real, w: real)
    requires t >= 0.0 && 0.0 < e <= w
    ensures t / w <= t / e
    ensures t / w == t / e <==> t == 0.0 || e == w
  {
    var q := t / e;
    assert q * w == t + q * (w - e);
    assert t / w == q - q * (w - e) / w;
  }

  lemma RateAdds(a: int, b: int, wall: int)
    ensures Throughput(a + b, wall) == Throughput(a, wall) + Throughput(b, wall)
  {
  }

  lemma {:induction false} SumOfRates(rs: seq<Report>, wall: int)
    requires forall i :: 0 <= i < |rs| ==> Timed(rs[i], wall)
    ensures var agg := Folded(rs).agg;
      && Throughput(agg.total, wall) <= agg.throughput
      && (Throughput(agg.total, wall) == agg.throughput
          <==> forall i :: 0 <= i < |rs| ==> rs[i].total == 0 || rs[i].duration == wall)
  {
    if rs != [] {
      var front, r := rs[..|rs| - 1], rs[|rs| - 1];
      SumOfRates(front, wall);
      RateAdds(Folded(front).agg.total, r.total, wall);
      RateFallsWithTime(r.total, r.duration, wall);
      assert rs == front + [r];
    }
  }

  /** The throughputs of workers that ran no longer than the whole never sum to less than the
      throughput of one collector of everything, and they sum to exactly that if and only if every
      worker that counted anything ran as long as the whole. */
  lemma {:induction false} ThroughputOverstates(name: string, histories: seq<seq<Event>>, elapsed: seq<int>,
                                                merged: seq<Event>, wall: int)
    requires |elapsed| == |histories| && multiset(merged) == multiset(Flatten(histories))
    requires forall i :: 0 <= i < |elapsed| ==> 0 < elapsed[i] <= wall
    ensures var agg := AggregateOf(name, Snapshots(name, histories, elapsed));
      var one := SnapshotOf(TallyOf(merged), name, wall);
      && one.throughput <= agg.throughput
      && (one.throughput == agg.throughput
          <==> forall i :: 0 <= i < |histories| ==> CountedEvents(histories[i]) == 0 || elapsed[i] == wall)
  {
    var rs := Snapshots(name, histories, elapsed);
    forall i | 0 <= i < |rs|
      ensures Timed(rs[i], wall) && rs[i].total == CountedEvents(histories[i]) && rs[i].duration == elapsed[i]
    {
      SnapshotCounts(histories[i], name, elapsed[i]);
    }
    AggregateCountsExactly(name, histories, elapsed, merged, wall);
    SumOfRates(rs, wall);
  }
}
