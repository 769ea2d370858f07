/** No two virtual users of a distributed run hold the same wallet: wallet shards, load shards
    and the engine's round robin put together. */
module Exclusivity {
  import opened Prelude
  import opened Division
  import opened Shards
  import opened Scenario
  import opened LoadEngine

  /** The users that worker `index` of `count` spawns; a worker without wallets does not start. */
  function UsersOf<T>(l: Load, wallets: seq<T>, index: nat, count: int): nat
    requires Accepted(l)
  {
    if |ShardOf(wallets, index, count)| == 0 then 0 else SpawnedBy(ShardOfLoad(l, index, count))
  }

  function WalletOf<T>(wallets: seq<T>, index: nat, count: int, user: nat): T
    requires |ShardOf(wallets, index, count)| > 0
  {
    var shard := ShardOf(wallets, index, count);
    shard[user % |shard|]
  }

  /** Workers that register late still get an index, from `count` on. A single-worker run has one
      worker: Controller says what happens if others register. */
  predicate TakesPart(index: nat, count: int) {
    count >= 2 || index == 0
  }

  predicate IsUser<T>(l: Load, wallets: seq<T>, count: int, index: nat, user: nat)
    requires Accepted(l)
  {
    TakesPart(index, count) && user < UsersOf(l, wallets, index, count)
  }

  ghost predicate NoSharedWallet<T>(l: Load, wallets: seq<T>, count: int)
    requires Accepted(l)
  {
    forall i: nat, j: nat, a: nat, b: nat ::
      IsUser(l, wallets, count, i, a) && IsUser(l, wallets, count, j, b) && (i != j || a != b)
      ==> WalletOf(wallets, i, count, a) != WalletOf(wallets, j, count, b)
  }

  /** Enough wallets in every shard that has any. */
  ghost predicate EachHasEnough<T>(l: Load, wallets: seq<T>, count: int)
    requires Accepted(l)
  {
    forall i: nat :: TakesPart(i, count) ==> UsersOf(l, wallets, i, count) <= |ShardOf(wallets, i, count)|
  }

  lemma UsersDiffer<T>(l: Load, wallets: seq<T>, count: int, i: nat, j: nat, a: nat, b: nat)
    requires Accepted(l) && Distinct(wallets) && EachHasEnough(l, wallets, count)
    requires IsUser(l, wallets, count, i, a) && IsUser(l, wallets, count, j, b) && (i != j || a != b)
    ensures WalletOf(wallets, i, count, a) != WalletOf(wallets, j, count, b)
  {
    var s, t := ShardOf(wallets, i, count), ShardOf(wallets, j, count);
    ModSmall(a, |s|);
    ModSmall(b, |t|);
    if i != j {
      ShardsAreDisjoint(wallets, i, j, count);
    } else {
      ShardIsDistinct(wallets, i, count);
    }
  }

  /** For every accepted load that runs users, staged ones of any shape included; arrival-rate
      loads run iterations instead, see ArrivalRate. */
  lemma NoSharedWalletIff<T>(l: Load, wallets: seq<T>, count: int)
    requires Accepted(l) && (Fixed(l) || Staged(l)) && Distinct(wallets)
    ensures NoSharedWallet(l, wallets, count) <==> EachHasEnough(l, wallets, count)
  {
    if EachHasEnough(l, wallets, count) {
      forall i: nat, j: nat, a: nat, b: nat |
        IsUser(l, wallets, count, i, a) && IsUser(l, wallets, count, j, b) && (i != j || a != b)
        ensures WalletOf(wallets, i, count, a) != WalletOf(wallets, j, count, b)
      {
        UsersDiffer(l, wallets, count, i, j, a, b);
      }
    } else {
      var i: nat :| TakesPart(i, count) && UsersOf(l, wallets, i, count) > |ShardOf(wallets, i, count)|;
      var n := |ShardOf(wallets, i, count)|;
      assert IsUser(l, wallets, count, i, 0) && IsUser(l, wallets, count, i, n);
      assert 0 % n == n % n;
    }
  }

  /** These users and wallets are those of a worker's engine, as internal/distributed/worker.go:65-73
      starts it: whenever the context ends, the users spawned so far are an initial piece of the
      users above, on the wallets above; if it does not, they are all of them. */
  method RunWorker<T>(l: Load, wallets: seq<T>, index: nat, count: int, cancelAt: Option<nat>)
    returns (err: Option<RunError>, ghost given: seq<T>)
    requires Accepted(l) && (Fixed(l) || Staged(l))
    ensures |given| <= UsersOf(l, wallets, index, count)
    ensures forall user :: 0 <= user < |given| ==> given[user] == WalletOf(wallets, index, count, user)
    ensures err.None? ==> |given| == UsersOf(l, wallets, index, count)
    ensures err == Some(NoWallets) <==> |ShardOf(wallets, index, count)| == 0
  {
    var shard := ShardWallets(wallets, index, count);
    AcceptedCanShard(l, index, count);
    var load := Scenario.Shard(l, index, count);
    var engine := new Engine(shard);
    err := engine.Run(load.value, cancelAt);
    given := engine.walletOf;
  }

  predicate HasPeak(l: Load) {
    Fixed(l) || l.kind == "spike" || l.kind == "stress"
  }

  /** A worker spawns exactly its share of the peak: spike and stress targets, divided, still rise
      once to the peak's share and no further. */
  lemma ShardSpawnsItsShare(l: Load, index: nat, count: int)
    requires Accepted(l) && HasPeak(l)
    ensures Peak(l) >= 0
    ensures SpawnedBy(ShardOfLoad(l, index, count)) ==
      if count <= 1 then Peak(l) else Divide(Peak(l), index, count)
  {
    if Fixed(l) {
      DivideNonNegative(l.vus, index, count);
    } else {
      AcceptedStagesAreGood(l);
      var stages := ResolvedStages(l).value;
      if l.kind == "spike" {
        assert stages[0].target == l.baseline;
        SpikeSpawns(l, index, count);
      } else {
        StaircaseClimbs(l.start, l.step, l.max, l.stageDuration);
        assert stages[0].target >= 0;
        StressSpawns(l, index, count);
      }
    }
  }

  lemma DivideNonNegative(total: int, index: nat, count: int)
    requires total >= 0
    ensures count >= 2 ==> Divide(total, index, count) >= 0
  {
    if count >= 2 {
      DivideBounds(total, index, count);
    }
  }

  lemma SpikeSpawns(l: Load, index: nat, count: int)
    requires Accepted(l) && l.kind == "spike" && 0 <= l.baseline < l.target
    ensures SpawnedBy(ShardOfLoad(l, index, count)) ==
      if count <= 1 then l.target else Divide(l.target, index, count)
  {
    var stages := ResolvedStages(l).value;
    if count <= 1 {
      ClimbOfSpike(stages[0], stages[1], stages[2]);
    } else {
      var d := DividedStages(stages, index, count);
      DivideMonotone(l.baseline, l.target, index, count);
      DivideBounds(l.baseline, index, count);
      assert d == [d[0], d[1], d[2]];
      ClimbOfSpike(d[0], d[1], d[2]);
    }
  }

  lemma StressSpawns(l: Load, index: nat, count: int)
    requires Accepted(l) && l.kind == "stress"
    requires GoodStages(ResolvedStages(l).value)
    ensures SpawnedBy(ShardOfLoad(l, index, count)) ==
      if count <= 1 then l.max else Divide(l.max, index, count)
  {
    StaircaseClimbs(l.start, l.step, l.max, l.stageDuration);
    var stages := ResolvedStages(l).value;
    if count <= 1 {
      ClimbOfRise(0, stages);
    } else {
      var d := DividedStages(stages, index, count);
      forall i, j | 0 <= i < j < |d| ensures d[i].target <= d[j].target {
        DivideMonotone(stages[i].target, stages[j].target, index, count);
      }
      DivideBounds(stages[0].target, index, count);
      ClimbOfRise(0, d);
    }
  }

  /** A constant, soak, spike or stress load split over any number of workers: as many wallets as
      the peak number of users are enough for no two users, on whichever workers, to share one.
      When every worker gets a wallet they are also necessary. */
  lemma PeakManyWalletsSuffice<T>(l: Load, wallets: seq<T>, count: int)
    requires Accepted(l) && HasPeak(l) && Distinct(wallets) && count >= 1
    ensures Peak(l) <= |wallets| ==> NoSharedWallet(l, wallets, count)
    ensures count <= |wallets| ==> (NoSharedWallet(l, wallets, count) <==> Peak(l) <= |wallets|)
  {
    NoSharedWalletIff(l, wallets, count);
    ShardSpawnsItsShare(l, 0, count);
    if Peak(l) <= |wallets| {
      forall i: nat | TakesPart(i, count)
        ensures UsersOf(l, wallets, i, count) <= |ShardOf(wallets, i, count)|
      {
        ShardSpawnsItsShare(l, i, count);
        if count >= 2 {
          ShardSize(wallets, i, count);
          DivideMonotone(Peak(l), |wallets|, i, count);
        }
      }
    } else if count <= |wallets| {
      TooFewWallets(l, wallets, count);
    }
  }

  lemma TooFewWallets<T>(l: Load, wallets: seq<T>, count: int)
    requires Accepted(l) && HasPeak(l) && 1 <= count <= |wallets| < Peak(l)
    ensures !EachHasEnough(l, wallets, count)
  {
    var i := if count == 1 then 0 else |wallets| % count;
    ShardSpawnsItsShare(l, i, count);
    if count >= 2 {
      NextUnit(|wallets|, count);
      DivideMonotone(|wallets| + 1, Peak(l), i, count);
      ShardSize(wallets, i, count);
      DivAtLeastOne(|wallets|, count);
    }
    assert TakesPart(i, count) && UsersOf(l, wallets, i, count) > |ShardOf(wallets, i, count)|;
  }
}
