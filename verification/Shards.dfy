/** internal/wallet/shard.go: the wallets of one worker. */
module Shards {
  import opened Prelude
  import opened Division

  /** The slice of worker `index`: everything for a single worker, else the stretch between the
      sums of the shares before and up to it, cut off at the end of the list. */
  function ShardOf<T>(wallets: seq<T>, index: nat, count: int): seq<T> {
    if count <= 1 then wallets
    else
      StartMonotone(|wallets|, index, index + 1, count);
      wallets[Min(StartOf(|wallets|, index, count), |wallets|)
           .. Min(StartOf(|wallets|, index + 1, count), |wallets|)]
  }

  method ShardWallets<T>(wallets: seq<T>, index: nat, count: int) returns (shard: seq<T>)
    ensures shard == ShardOf(wallets, index, count)
  {
    if count <= 1 {
      return wallets;
    }
    var start := 0;
    for i := 0 to index
      invariant start == StartOf(|wallets|, i, count)
    {
      StartStep(|wallets|, i, count);
      start := start + Divide(|wallets|, i, count);
    }
    StartStep(|wallets|, index, count);
    DivideBounds(|wallets|, index, count);
    if start > |wallets| {
      start := |wallets|;
    }
    var end := start + Divide(|wallets|, index, count);
    if end > |wallets| {
      end := |wallets|;
    }
    return wallets[start..end];
  }

  /** For a worker of the cohort neither cut-off applies; a late one starts at the end. */
  lemma ClampsNeverFire(total: nat, index: nat, count: int)
    requires count > 0
    ensures index < count ==> StartOf(total, index + 1, count) <= total
    ensures index >= count ==> StartOf(total, index, count) >= total
  {
    StartEnd(total, count);
    if index < count {
      StartMonotone(total, index + 1, count, count);
    } else {
      StartMonotone(total, count, index, count);
    }
  }

  lemma ShardSize<T>(wallets: seq<T>, index: nat, count: int)
    requires count >= 2
    ensures |ShardOf(wallets, index, count)| == if index < count then Divide(|wallets|, index, count) else 0
  {
    ClampsNeverFire(|wallets|, index, count);
    StartStep(|wallets|, index, count);
    DivideBounds(|wallets|, index, count);
  }

  /** Sizes never grow with the index, and differ by at most one within the cohort. */
  lemma ShardsAreEven<T>(wallets: seq<T>, i: nat, j: nat, count: int)
    requires count >= 2 && i <= j
    ensures |ShardOf(wallets, j, count)| <= |ShardOf(wallets, i, count)|
    ensures j < count ==> |ShardOf(wallets, i, count)| <= |ShardOf(wallets, j, count)| + 1
  {
    ShardSize(wallets, i, count);
    ShardSize(wallets, j, count);
    DivideIsEven(|wallets|, i, j, count);
    DivideBounds(|wallets|, i, count);
  }

  function Concatenated<T>(wallets: seq<T>, count: int, k: nat): seq<T> {
    if k == 0 then [] else Concatenated(wallets, count, k - 1) + ShardOf(wallets, k - 1, count)
  }

  lemma Abut<T>(s: seq<T>, i: nat, j: nat)
    requires i <= j <= |s|
    ensures s[..i] + s[i..j] == s[..j]
  {
  }

  lemma {:induction false} ConcatenatedPrefix<T>(wallets: seq<T>, count: int, k: nat)
    requires count >= 2 && k <= count
    ensures StartOf(|wallets|, k, count) <= |wallets|
    ensures Concatenated(wallets, count, k) == wallets[..StartOf(|wallets|, k, count)]
  {
    if k > 0 {
      ConcatenatedPrefix(wallets, count, k - 1);
      ClampsNeverFire(|wallets|, k - 1, count);
      StartMonotone(|wallets|, k - 1, k, count);
      Abut(wallets, StartOf(|wallets|, k - 1, count), StartOf(|wallets|, k, count));
    }
  }

  /** The cohort's slices, one after another, are the wallets: none lost, none twice. */
  lemma ShardsCoverWallets<T>(wallets: seq<T>, count: int)
    requires count >= 1
    ensures Concatenated(wallets, count, count) == wallets
  {
    if count == 1 {
      assert Concatenated(wallets, 1, 1) == Concatenated(wallets, 1, 0) + ShardOf(wallets, 0, 1);
    } else {
      ConcatenatedPrefix(wallets, count, count);
      StartEnd(|wallets|, count);
    }
  }

  /** Two different workers, in the cohort or late, never hold the same wallet. */
  lemma ShardsAreDisjoint<T>(wallets: seq<T>, i: nat, j: nat, count: int)
    requires count >= 2 && i != j && Distinct(wallets)
    ensures Apart(ShardOf(wallets, i, count), ShardOf(wallets, j, count))
  {
    if i < j {
      StartMonotone(|wallets|, i + 1, j, count);
    } else {
      StartMonotone(|wallets|, j + 1, i, count);
    }
    StartMonotone(|wallets|, i, i + 1, count);
    StartMonotone(|wallets|, j, j + 1, count);
  }

  lemma ShardIsDistinct<T>(wallets: seq<T>, index: nat, count: int)
    requires Distinct(wallets)
    ensures Distinct(ShardOf(wallets, index, count))
  {
    if count > 1 {
      StartMonotone(|wallets|, index, index + 1, count);
    }
  }
}
