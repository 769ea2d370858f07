/** internal/scenario/schema.go and validate.go: the load section of a scenario. */
module Scenario {
  import opened Prelude
  import opened Division

  /** Durations are nanoseconds. */
  datatype Stage = Stage(duration: int, target: int)

  datatype Load = Load(
    kind: string,
    vus: int,
    duration: int,
    stages: seq<Stage>,
    baseline: int,
    target: int,
    before: int,
    spikeDuration: int,
    after: int,
    start: int,
    step: int,
    stageDuration: int,
    max: int,
    rate: int,
    timeUnit: int,
    preAllocatedVUs: int,
    maxVUs: int)

  datatype LoadError =
    | NotStageBased
    | CannotShard
    | VUsNotPositive
    | DurationNotPositive
    | NoStages
    | TargetNotAboveBaseline
    | SpikeDurationsNotPositive
    | StepNotPositive
    | MaxNotAboveStart
    | StageDurationNotPositive
    | BadStageDuration(stage: nat)
    | NegativeTarget(stage: nat)
    | RateNotPositive
    | MaxVUsNotPositive
    | PreAllocatedOutOfRange
    | TypeMissing
    | TypeUnknown

  /** The zero Load that a staged shard starts from. */
  function Ramping(stages: seq<Stage>): Load {
    Load("ramping", 0, 0, stages, 0, 0, 0, 0, 0, 0, 0, 0, 0, 0, 0, 0, 0)
  }

  predicate Fixed(l: Load) {
    l.kind == "constant" || l.kind == "soak"
  }

  predicate Staged(l: Load) {
    l.kind == "ramping" || l.kind == "spike" || l.kind == "stress"
  }

  // ----- ResolvedStages ------------------------------------------------------------------------

  /** The staircase only ends if it climbs; Load.validate is what makes sure of it. */
  predicate ExpansionEnds(l: Load) {
    l.kind == "stress" && l.start < l.max ==> l.step > 0
  }

  function Staircase(start: int, step: int, max: int, duration: int): seq<Stage>
    requires start < max ==> step > 0
    decreases max - start
  {
    if start < max then [Stage(duration, start)] + Staircase(start + step, step, max, duration)
    else [Stage(duration, max)]
  }

  function ResolvedStages(l: Load): Result<seq<Stage>, LoadError>
    requires ExpansionEnds(l)
  {
    if l.kind == "ramping" then Ok(l.stages)
    else if l.kind == "spike" then
      Ok([Stage(l.before, l.baseline), Stage(l.spikeDuration, l.target), Stage(l.after, l.baseline)])
    else if l.kind == "stress" then Ok(Staircase(l.start, l.step, l.max, l.stageDuration))
    else Err(NotStageBased)
  }

  method ResolveStages(l: Load) returns (r: Result<seq<Stage>, LoadError>)
    requires ExpansionEnds(l)
    ensures r == ResolvedStages(l)
  {
    if l.kind == "ramping" {
      return Ok(l.stages);
    } else if l.kind == "spike" {
      return Ok([Stage(l.before, l.baseline), Stage(l.spikeDuration, l.target), Stage(l.after, l.baseline)]);
    } else if l.kind == "stress" {
      var stages := [];
      var target := l.start;
      while target < l.max
        invariant target < l.max ==> l.step > 0
        invariant stages + Staircase(target, l.step, l.max, l.stageDuration)
               == Staircase(l.start, l.step, l.max, l.stageDuration)
        decreases l.max - target
      {
        stages := stages + [Stage(l.stageDuration, target)];
        target := target + l.step;
      }
      stages := stages + [Stage(l.stageDuration, l.max)];
      return Ok(stages);
    } else {
      return Err(NotStageBased);
    }
  }

  ghost predicate Climbing(stages: seq<Stage>) {
    forall i, j :: 0 <= i < j < |stages| ==> stages[i].target < stages[j].target
  }

  /** The staircase climbs strictly from the start, holds every plateau equally long and ends at
      the maximum. */
  lemma {:induction false} StaircaseClimbs(start: int, step: int, max: int, duration: int)
    requires start < max ==> step > 0
    ensures var s := Staircase(start, step, max, duration);
      && s != [] && Climbing(s)
      && s[0].target == (if start < max then start else max) && s[|s| - 1].target == max
      && (forall i :: 0 <= i < |s| ==> s[i].duration == duration)
    decreases max - start
  {
    if start < max {
      StaircaseClimbs(start + step, step, max, duration);
      var s, t := Staircase(start, step, max, duration), Staircase(start + step, step, max, duration);
      forall i | 0 < i < |s| ensures s[i] == t[i - 1] && s[0].target < s[i].target {
        assert t[0].target <= t[i - 1].target;
      }
    }
  }

  /** Its steps are equal but for the last, which is no larger, however the step divides the
      distance. */
  lemma {:induction false} StaircaseSteps(start: int, step: int, max: int, duration: int, i: nat)
    requires start < max ==> step > 0
    requires i < |Staircase(start, step, max, duration)| - 1
    ensures var s := Staircase(start, step, max, duration);
      s[i].target == start + i * step < max && s[i + 1].target == Min(start + (i + 1) * step, max)
    decreases max - start
  {
    if i > 0 {
      StaircaseSteps(start + step, step, max, duration, i - 1);
      assert start + step + (i - 1) * step == start + i * step;
      assert start + step + i * step == start + (i + 1) * step;
    }
  }

  /** A spike is three stages: the baseline, the target, the baseline again, each as long as its own
      parameter says; a ramping load's stages are its own; other kinds have none. */
  lemma ExpansionSays(l: Load)
    requires ExpansionEnds(l)
    ensures var r := ResolvedStages(l);
      && (l.kind == "ramping" ==> r == Ok(l.stages))
      && (l.kind == "spike" ==>
          && r.Ok? && |r.value| == 3
          && r.value[0].duration == l.before && r.value[0].target == l.baseline
          && r.value[1].duration == l.spikeDuration && r.value[1].target == l.target
          && r.value[2].duration == l.after && r.value[2].target == l.baseline)
      && (r.Err? <==> l.kind !in {"ramping", "spike", "stress"})
  {
  }

  // ----- Validation --------------------------------------------------------------------------------

  function FirstBadStage(stages: seq<Stage>, i: nat): Option<LoadError>
    decreases |stages| - i
  {
    if i >= |stages| then None
    else if stages[i].duration <= 0 then Some(BadStageDuration(i))
    else if stages[i].target < 0 then Some(NegativeTarget(i))
    else FirstBadStage(stages, i + 1)
  }

  function ValidateStages(l: Load): Option<LoadError>
    requires ExpansionEnds(l)
  {
    match ResolvedStages(l)
    case Err(e) => Some(e)
    case Ok(stages) => FirstBadStage(stages, 0)
  }

  function Validate(l: Load): Option<LoadError> {
    if Fixed(l) then
      if l.vus <= 0 then Some(VUsNotPositive)
      else if l.duration <= 0 then Some(DurationNotPositive)
      else None
    else if l.kind == "ramping" then
      if l.stages == [] then Some(NoStages)
      else ValidateStages(l)
    else if l.kind == "spike" then
      if l.target <= l.baseline then Some(TargetNotAboveBaseline)
      else if l.before <= 0 || l.spikeDuration <= 0 || l.after <= 0 then Some(SpikeDurationsNotPositive)
      else ValidateStages(l)
    else if l.kind == "stress" then
      if l.step <= 0 then Some(StepNotPositive)
      else if l.max <= l.start then Some(MaxNotAboveStart)
      else if l.stageDuration <= 0 then Some(StageDurationNotPositive)
      else ValidateStages(l)
    else if l.kind == "arrival-rate" then
      if l.rate <= 0 then Some(RateNotPositive)
      else if l.maxVUs <= 0 then Some(MaxVUsNotPositive)
      else if l.preAllocatedVUs < 0 || l.preAllocatedVUs > l.maxVUs then Some(PreAllocatedOutOfRange)
      else if l.duration <= 0 then Some(DurationNotPositive)
      else None
    else if l.kind == "" then Some(TypeMissing)
    else Some(TypeUnknown)
  }

  predicate Accepted(l: Load) {
    Validate(l).None?
  }

  predicate GoodStages(stages: seq<Stage>) {
    forall i :: 0 <= i < |stages| ==> stages[i].duration > 0 && stages[i].target >= 0
  }

  lemma {:induction false} FirstBadStageFinds(stages: seq<Stage>, i: nat)
    requires i <= |stages|
    ensures FirstBadStage(stages, i).None? <==> GoodStages(stages[i..])
    decreases |stages| - i
  {
    if i < |stages| {
      FirstBadStageFinds(stages, i + 1);
      assert stages[i..] == [stages[i]] + stages[i + 1..];
    }
  }

  /** The complaint about a stage names the first bad one, and its duration before its target. */
  lemma {:induction false} FirstBadStageIsFirst(stages: seq<Stage>, i: nat)
    requires i <= |stages|
    ensures var e := FirstBadStage(stages, i);
      e.Some? ==>
        && (e.value.BadStageDuration? || e.value.NegativeTarget?)
        && i <= e.value.stage < |stages|
        && GoodStages(stages[i..e.value.stage])
        && (e.value.BadStageDuration? <==> stages[e.value.stage].duration <= 0)
        && (e.value.NegativeTarget? ==> stages[e.value.stage].target < 0)
    decreases |stages| - i
  {
    if i < |stages| {
      FirstBadStageIsFirst(stages, i + 1);
    }
  }

  /** An accepted load of a staged kind expands into a non-empty list of stages, each of which the
      engine can hold; no staged load with such an expansion is refused unless its own
      parameters are out of order. */
  lemma AcceptedStagesAreGood(l: Load)
    requires Staged(l) && ExpansionEnds(l)
    ensures Accepted(l) <==>
      && ResolvedStages(l).value != [] && GoodStages(ResolvedStages(l).value)
      && (l.kind == "spike" ==> l.baseline < l.target)
      && (l.kind == "stress" ==> l.start < l.max && l.step > 0)
  {
    var stages := ResolvedStages(l).value;
    FirstBadStageFinds(stages, 0);
    assert stages[0..] == stages;
    if l.kind == "spike" {
      assert stages[0] == Stage(l.before, l.baseline) && stages[1] == Stage(l.spikeDuration, l.target);
      assert stages[2] == Stage(l.after, l.baseline);
    } else if l.kind == "stress" {
      StaircaseClimbs(l.start, l.step, l.max, l.stageDuration);
      assert stages[0].duration == l.stageDuration;
    }
  }

  /** What is accepted of the kinds without stages, and the order of the complaints. */
  lemma AcceptedIff(l: Load)
    ensures l.kind in {"constant", "soak"} ==> (Accepted(l) <==> l.vus > 0 && l.duration > 0)
    ensures l.kind == "arrival-rate" ==>
      (Accepted(l) <==> l.rate > 0 && l.maxVUs > 0 && 0 <= l.preAllocatedVUs <= l.maxVUs && l.duration > 0)
    ensures Accepted(l) ==> l.kind in {"constant", "soak", "ramping", "spike", "stress", "arrival-rate"}
  {
  }

  /** A refusal names something that is wrong, and is made only if something is. */
  lemma ComplaintIsTrue(l: Load)
    ensures var e := Validate(l);
      && (e == Some(VUsNotPositive) ==> l.kind in {"constant", "soak"} && l.vus <= 0)
      && (e == Some(DurationNotPositive) ==> l.kind in {"constant", "soak", "arrival-rate"} && l.duration <= 0)
      && (e == Some(NoStages) <==> l.kind == "ramping" && l.stages == [])
      && (e == Some(TargetNotAboveBaseline) <==> l.kind == "spike" && l.target <= l.baseline)
      && (e == Some(SpikeDurationsNotPositive) ==>
          l.kind == "spike" && (l.before <= 0 || l.spikeDuration <= 0 || l.after <= 0))
      && (e == Some(StepNotPositive) <==> l.kind == "stress" && l.step <= 0)
      && (e == Some(MaxNotAboveStart) ==> l.kind == "stress" && l.max <= l.start)
      && (e == Some(StageDurationNotPositive) ==> l.kind == "stress" && l.stageDuration <= 0)
      && (e == Some(RateNotPositive) <==> l.kind == "arrival-rate" && l.rate <= 0)
      && (e == Some(MaxVUsNotPositive) ==> l.kind == "arrival-rate" && l.maxVUs <= 0)
      && (e == Some(PreAllocatedOutOfRange) ==> l.kind == "arrival-rate" && !(0 <= l.preAllocatedVUs <= l.maxVUs))
      && (e == Some(TypeMissing) <==> l.kind == "")
      && (e == Some(TypeUnknown) <==>
          l.kind !in {"", "constant", "soak", "ramping", "spike", "stress", "arrival-rate"})
      && (e.Some? && (e.value.BadStageDuration? || e.value.NegativeTarget?) ==>
          l.kind in {"ramping", "spike", "stress"})
      && e != Some(NotStageBased) && e != Some(CannotShard)
  {
    if ExpansionEnds(l) && ResolvedStages(l).Ok? {
      FirstBadStageIsFirst(ResolvedStages(l).value, 0);
    }
  }

  // ----- Sharding ------------------------------------------------------------------------------------

  function DividedStages(stages: seq<Stage>, index: nat, count: int): (r: seq<Stage>)
    requires count > 0
    ensures |r| == |stages|
  {
    seq(|stages|, i requires 0 <= i < |stages| => Stage(stages[i].duration, Divide(stages[i].target, index, count)))
  }

  function ShardLoad(l: Load, index: nat, count: int): Result<Load, LoadError>
    requires ExpansionEnds(l)
  {
    if count <= 1 then Ok(l)
    else if Fixed(l) then Ok(l.(vus := Divide(l.vus, index, count)))
    else if l.kind == "arrival-rate" then
      var maxVUs := Divide(l.maxVUs, index, count);
      Ok(l.(rate := Divide(l.rate, index, count),
            maxVUs := maxVUs,
            preAllocatedVUs := Min(l.preAllocatedVUs, maxVUs)))
    else if Staged(l) then Ok(Ramping(DividedStages(ResolvedStages(l).value, index, count)))
    else Err(CannotShard)
  }

  method Shard(l: Load, index: nat, count: int) returns (r: Result<Load, LoadError>)
    requires ExpansionEnds(l)
    ensures r == ShardLoad(l, index, count)
  {
    if count <= 1 {
      return Ok(l);
    }
    if Fixed(l) {
      return Ok(l.(vus := Divide(l.vus, index, count)));
    } else if l.kind == "arrival-rate" {
      var out := l.(rate := Divide(l.rate, index, count), maxVUs := Divide(l.maxVUs, index, count));
      if out.preAllocatedVUs > out.maxVUs {
        out := out.(preAllocatedVUs := out.maxVUs);
      }
      return Ok(out);
    } else if Staged(l) {
      var stages := ResolveStages(l);
      var sharded := [];
      for i := 0 to |stages.value|
        invariant sharded == DividedStages(stages.value, index, count)[..i]
      {
        sharded := sharded + [Stage(stages.value[i].duration, Divide(stages.value[i].target, index, count))];
      }
      assert sharded == DividedStages(stages.value, index, count);
      return Ok(Ramping(sharded));
    } else {
      return Err(CannotShard);
    }
  }

  /** Accepted loads can always be sharded: the controller's error branch is never taken. */
  lemma AcceptedCanShard(l: Load, index: nat, count: int)
    requires Accepted(l)
    ensures ExpansionEnds(l) && ShardLoad(l, index, count).Ok?
  {
  }

  function ShardOfLoad(l: Load, index: nat, count: int): (shard: Load)
    requires Accepted(l)
    ensures ExpansionEnds(shard)
  {
    AcceptedCanShard(l, index, count);
    ShardLoad(l, index, count).value
  }

  /** Resolving a shard gives the shares of the original's resolved stages, duration by duration. */
  lemma ShardThenResolve(l: Load, index: nat, count: int)
    requires Accepted(l) && Staged(l) && count >= 2
    ensures var whole, part := ResolvedStages(l).value, ResolvedStages(ShardOfLoad(l, index, count));
      && part.Ok? && |part.value| == |whole|
      && forall k :: 0 <= k < |whole| ==>
        part.value[k].duration == whole[k].duration && part.value[k].target == Divide(whole[k].target, index, count)
  {
  }

  /** A shard changes nothing but the numbers that are divided. Pre-allocation is cut to the shard's
      own cap and no further; a staged load turns into a ramping one that has only its stages. */
  lemma ShardKeepsTheRest(l: Load, index: nat, count: int)
    requires Accepted(l)
    ensures var shard := ShardOfLoad(l, index, count);
      && (count <= 1 ==> shard == l)
      && (count >= 2 && l.kind in {"constant", "soak"} ==> shard.(vus := l.vus) == l)
      && (count >= 2 && l.kind == "arrival-rate" ==>
          && shard.(rate := l.rate, maxVUs := l.maxVUs, preAllocatedVUs := l.preAllocatedVUs) == l
          && shard.preAllocatedVUs <= l.preAllocatedVUs && shard.preAllocatedVUs <= shard.maxVUs
          && (shard.preAllocatedVUs == l.preAllocatedVUs || shard.preAllocatedVUs == shard.maxVUs))
      && (count >= 2 && l.kind in {"ramping", "spike", "stress"} ==>
          shard == Load("ramping", 0, 0, shard.stages, 0, 0, 0, 0, 0, 0, 0, 0, 0, 0, 0, 0, 0))
  {
  }

  /** Loads of other kinds cannot be sharded. */
  lemma ShardRefusesIff(l: Load, index: nat, count: int)
    requires ExpansionEnds(l)
    ensures ShardLoad(l, index, count).Err?
       <==> count >= 2 && l.kind !in {"constant", "soak", "ramping", "spike", "stress", "arrival-rate"}
    ensures ShardLoad(l, index, count).Err? ==> ShardLoad(l, index, count).error == CannotShard
  {
  }

  function VUsOf(l: Load, count: int): seq<int>
    requires Accepted(l)
  {
    seq(Max(count, 1), i requires i >= 0 => ShardOfLoad(l, i, count).vus)
  }

  function RatesOf(l: Load, count: int): seq<int>
    requires Accepted(l)
  {
    seq(Max(count, 1), i requires i >= 0 => ShardOfLoad(l, i, count).rate)
  }

  function MaxVUsOf(l: Load, count: int): seq<int>
    requires Accepted(l)
  {
    seq(Max(count, 1), i requires i >= 0 => ShardOfLoad(l, i, count).maxVUs)
  }

  /** The targets of stage k over all workers. */
  function TargetsOf(l: Load, count: int, k: nat): seq<int>
    requires Accepted(l) && Staged(l) && k < |ResolvedStages(l).value|
  {
    seq(Max(count, 1), i requires i >= 0 =>
      var shard := ShardOfLoad(l, i, count);
      ResolvedStages(shard).value[k].target)
  }

  lemma ConservesOne(values: seq<int>, total: int, count: int)
    requires count >= 1 && total >= 0 && |values| == count
    requires forall i :: 0 <= i < count ==> values[i] == if count == 1 then total else Divide(total, i, count)
    ensures Sum(values) == total
  {
    if count == 1 {
      assert values == [total];
    } else {
      assert values == Shares(total, count);
      SharesConserve(total, count);
    }
  }

  /** The workers' virtual users, rates, caps and stage targets add up to the original's. */
  lemma ShardsConserveLoad(l: Load, count: int)
    requires Accepted(l) && count >= 1
    ensures Fixed(l) ==> Sum(VUsOf(l, count)) == l.vus
    ensures l.kind == "arrival-rate" ==> Sum(RatesOf(l, count)) == l.rate && Sum(MaxVUsOf(l, count)) == l.maxVUs
    ensures Staged(l) ==> forall k :: 0 <= k < |ResolvedStages(l).value| ==>
      Sum(TargetsOf(l, count, k)) == ResolvedStages(l).value[k].target
  {
    if Fixed(l) {
      ConservesOne(VUsOf(l, count), l.vus, count);
    } else if l.kind == "arrival-rate" {
      ConservesOne(RatesOf(l, count), l.rate, count);
      ConservesOne(MaxVUsOf(l, count), l.maxVUs, count);
    } else if Staged(l) {
      AcceptedStagesAreGood(l);
      forall k | 0 <= k < |ResolvedStages(l).value|
        ensures Sum(TargetsOf(l, count, k)) == ResolvedStages(l).value[k].target
      {
        ConservesOne(TargetsOf(l, count, k), ResolvedStages(l).value[k].target, count);
      }
    }
  }

  /** The largest cohort all of whose workers have something to do; none for staged loads, which
      may idle at a target of zero. */
  function Width(l: Load): int {
    if Fixed(l) then l.vus else Min(l.rate, l.maxVUs)
  }

  /** A worker of the cohort is sent a load that validates again exactly when the load reaches it. */
  lemma ShardAcceptedIff(l: Load, index: nat, count: int)
    requires Accepted(l) && count >= 2 && index < count
    ensures Accepted(ShardOfLoad(l, index, count)) <==> Staged(l) || index < Width(l)
  {
    var shard := ShardOfLoad(l, index, count);
    if Fixed(l) {
      DividePositive(l.vus, index, count);
    } else if l.kind == "arrival-rate" {
      DividePositive(l.rate, index, count);
      DividePositive(l.maxVUs, index, count);
      DivideBounds(l.maxVUs, index, count);
    } else {
      AcceptedStagesAreGood(l);
      AcceptedStagesAreGood(shard);
      forall i | 0 <= i < |shard.stages| ensures shard.stages[i].duration > 0 && shard.stages[i].target >= 0 {
        DivideBounds(ResolvedStages(l).value[i].target, index, count);
      }
    }
  }

  lemma AllShardsAcceptedIff(l: Load, count: int)
    requires Accepted(l) && count >= 2
    ensures (forall i: nat :: i < count ==> Accepted(ShardOfLoad(l, i, count))) <==> Staged(l) || count <= Width(l)
  {
    forall i: nat | i < count
      ensures Accepted(ShardOfLoad(l, i, count)) <==> Staged(l) || i < Width(l)
    {
      ShardAcceptedIff(l, i, count);
    }
    if !Staged(l) && Width(l) < count {
      assert !Accepted(ShardOfLoad(l, Width(l), count));
    }
  }
}
