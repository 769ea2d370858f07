/** internal/load/engine.go, executeWithRetry, and the checks of its policy in validate.go. */
module Retry {
  import opened Prelude
  import opened TxEngine
  import opened Actions

  datatype RetryPolicy = RetryPolicy(maxAttempts: int, baseDelay: int)

  /** The retry checks of Step.validate. */
  predicate AcceptedPolicy(policy: Option<RetryPolicy>) {
    policy.Some? ==> policy.value.maxAttempts >= 1 && policy.value.baseDelay >= 0
  }

  datatype StepError = Failed(message: string) | ContextEnded

  /** One call of the action: its result, its error, and whether it broadcast a transaction. */
  datatype Attempt = Attempt(res: ActionResult, err: Option<string>, broadcast: bool)

  // ----- The delay, in 64-bit arithmetic ---------------------------------------------------------

  const TWO_63: int := 0x8000_0000_0000_0000
  const TWO_64: int := 0x1_0000_0000_0000_0000

  function Wrap64(x: int): (w: int)
    ensures -TWO_63 <= w < TWO_63
    ensures -TWO_63 <= x < TWO_63 ==> w == x
  {
    (x + TWO_63) % TWO_64 - TWO_63
  }

  function Pow2(k: nat): (p: nat)
    ensures p > k
  {
    if k == 0 then 1 else 2 * Pow2(k - 1)
  }

  /** int64(1) << uint(k): every bit is shifted out from 64 on. */
  function Shift64(k: nat): int {
    if k >= 64 then 0 else Wrap64(Pow2(k))
  }

  function Delay(baseDelay: int, k: nat): int {
    Wrap64(baseDelay * Shift64(k))
  }

  lemma {:induction false} Pow2Grows(j: nat, k: nat)
    requires j <= k
    ensures Pow2(j) <= Pow2(k)
    decreases k
  {
    if j < k {
      Pow2Grows(j, k - 1);
    }
  }

  lemma Pow2Of63()
    ensures Pow2(63) == TWO_63
  {
    assert Pow2(7) == 128;
    Pow2Adds(7, 7);
    Pow2Adds(14, 7);
    Pow2Adds(21, 21);
    Pow2Adds(42, 21);
  }

  lemma {:induction false} Pow2Adds(j: nat, k: nat)
    ensures Pow2(j + k) == Pow2(j) * Pow2(k)
  {
    if k > 0 {
      Pow2Adds(j, k - 1);
      Doubles(Pow2(j), Pow2(k - 1));
    }
  }

  lemma Doubles(a: int, p: int)
    ensures a * (2 * p) == 2 * (a * p)
    ensures a * (2 * p - 1) == a * (p - 1) + a * p
  {
  }

  /** The k-th delay doubles k times, and is exactly that as long as the value fits a Duration;
      past that it is always less. */
  lemma {:induction false} DelayExactIff(baseDelay: int, k: nat)
    requires 0 <= baseDelay < TWO_63
    ensures Delay(baseDelay, k) == baseDelay * Pow2(k) <==> baseDelay * Pow2(k) < TWO_63
    ensures Delay(baseDelay, k) <= baseDelay * Pow2(k)
  {
    Pow2Of63();
    if k < 63 {
      Pow2Grows(k, 62);
      assert Pow2(63) == 2 * Pow2(62);
      assert Shift64(k) == Pow2(k);
    } else {
      Pow2Grows(63, k);
      if baseDelay > 0 {
        ProductAtLeast(baseDelay, Pow2(k));
      }
    }
    ProductNonNegative(baseDelay, Pow2(k));
  }

  /** Equal in their lower 64 bits. */
  ghost predicate SameBits(x: int, y: int) {
    (x - y) % 0x1_0000_0000_0000_0000 == 0
  }

  /** A delay that does not fit a Duration is what is left of it in 64 bits. */
  lemma DelayWraps(baseDelay: int, k: nat)
    ensures -0x8000_0000_0000_0000 <= Delay(baseDelay, k) < 0x8000_0000_0000_0000
    ensures SameBits(baseDelay * Pow2(k), Delay(baseDelay, k))
  {
    ShiftWraps(k);
    SameBitsTimes(baseDelay, Pow2(k), Shift64(k));
    WrapDrops(baseDelay * Shift64(k));
    SameBitsChain(baseDelay * Pow2(k), baseDelay * Shift64(k), Delay(baseDelay, k));
  }

  lemma WrapDrops(x: int)
    ensures SameBits(x, Wrap64(x))
  {
  }

  lemma SameBitsChain(x: int, y: int, z: int)
    requires SameBits(x, y) && SameBits(y, z)
    ensures SameBits(x, z)
  {
  }

  lemma SameBitsTimes(a: int, x: int, y: int)
    requires SameBits(x, y)
    ensures SameBits(a * x, a * y)
  {
    var q := (x - y) / TWO_64;
    assert a * x - a * y == a * (x - y);
    Regroups(a, q, TWO_64);
    MultipleHasNoRest(a * q);
  }

  lemma Regroups(a: int, b: int, c: int)
    ensures a * (b * c) == (a * b) * c
  {
  }

  lemma MultipleHasNoRest(a: int)
    ensures a * TWO_64 % TWO_64 == 0
  {
  }

  lemma ShiftWraps(k: nat)
    ensures SameBits(Pow2(k), Shift64(k))
  {
    if k < 64 {
      WrapDrops(Pow2(k));
    } else {
      Pow2Of63();
      assert Pow2(64) == 2 * Pow2(63);
      Pow2Adds(k - 64, 64);
      MultipleHasNoRest(Pow2(k - 64));
    }
  }

  lemma ProductAtLeast(a: nat, b: nat)
    requires a > 0
    ensures a * b >= b
  {
  }

  lemma ProductNonNegative(a: nat, b: nat)
    ensures a * b >= 0
  {
  }

  /** The time a pause takes: a timer for a delay that wrapped below zero fires at once. */
  function Pause(baseDelay: int, k: nat): int {
    Max(0, Delay(baseDelay, k))
  }

  function Pauses(baseDelay: int, n: nat): seq<int> {
    seq(n, k requires k >= 0 => Pause(baseDelay, k))
  }

  lemma {:induction false} TotalPause(baseDelay: int, n: nat)
    requires 0 <= baseDelay < TWO_63
    ensures Sum(Pauses(baseDelay, n)) <= baseDelay * (Pow2(n) - 1)
    ensures Sum(Pauses(baseDelay, n)) == baseDelay * (Pow2(n) - 1)
       <==> n == 0 || baseDelay * Pow2(n - 1) < TWO_63
  {
    if n > 0 {
      TotalPause(baseDelay, n - 1);
      assert Pauses(baseDelay, n) == Pauses(baseDelay, n - 1) + [Pause(baseDelay, n - 1)];
      SumSnoc(Pauses(baseDelay, n - 1), Pause(baseDelay, n - 1));
      DelayExactIff(baseDelay, n - 1);
      Doubles(baseDelay, Pow2(n - 1));
      if n > 1 {
        Doubles(baseDelay, Pow2(n - 2));
        ProductNonNegative(baseDelay, Pow2(n - 2));
      }
    }
  }

  // ----- The loop ------------------------------------------------------------------------------------

  datatype RetryRun = RetryRun(res: ActionResult, err: Option<StepError>, calls: nat, waits: seq<int>)

  function AsStepError(err: Option<string>): Option<StepError> {
    if err.Some? then Some(Failed(err.value)) else None
  }

  /** A failure that left no hash behind. */
  predicate Retryable(a: Attempt) {
    a.err.Some? && a.res.txHash == ""
  }

  function MaxAttempts(policy: Option<RetryPolicy>): int {
    if policy.Some? then policy.value.maxAttempts else 1
  }

  function BaseDelay(policy: Option<RetryPolicy>): int {
    if policy.Some? then policy.value.baseDelay else 0
  }

  /** `script(k)` is what the k-th call would do, `ended(k)` whether the context ends in the pause
      after it. */
  method ExecuteWithRetry(policy: Option<RetryPolicy>, script: nat -> Attempt, ended: nat -> bool)
    returns (run: RetryRun)
    ensures IsRetryRun(policy, script, ended, run)
  {
    var maxAttempts := MaxAttempts(policy);
    var baseDelay := BaseDelay(policy);
    run := RetryRun(NO_RESULT, None, 0, []);
    var attempt := 0;
    while attempt < maxAttempts
      invariant 0 <= attempt <= Max(maxAttempts, 0)
      invariant run.calls == attempt && run.waits == Pauses(baseDelay, attempt)
      invariant attempt == 0 ==> run == RetryRun(NO_RESULT, None, 0, [])
      invariant attempt > 0 ==> attempt < maxAttempts
      invariant forall k: nat :: k < attempt ==> Retryable(script(k)) && !ended(k)
      decreases maxAttempts - attempt
    {
      var a := script(attempt);
      run := run.(res := a.res, err := AsStepError(a.err), calls := attempt + 1);
      if a.err.None? || a.res.txHash != "" || attempt == maxAttempts - 1 {
        return;
      }
      run := run.(waits := run.waits + [Pause(baseDelay, attempt)]);
      assert run.waits == Pauses(baseDelay, attempt + 1);
      if ended(attempt) {
        run := run.(err := Some(ContextEnded));
        return;
      }
      attempt := attempt + 1;
    }
  }

  /** Every call but the last failed without a hash and was followed by a full pause; the last one
      gives the result, unless the context ended in the pause after it. */
  ghost predicate IsRetryRun(policy: Option<RetryPolicy>, script: nat -> Attempt, ended: nat -> bool, run: RetryRun) {
    var max := MaxAttempts(policy);
    && (max <= 0 <==> run.calls == 0)
    && run.waits == Pauses(BaseDelay(policy), |run.waits|)
    && (run.calls == 0 ==> run == RetryRun(NO_RESULT, None, 0, []))
    && (run.calls > 0 ==>
      var last := script(run.calls - 1);
      && run.calls <= max
      && run.res == last.res
      && (forall k: nat :: k < run.calls - 1 ==> Retryable(script(k)) && !ended(k))
      && if !Retryable(last) || run.calls == max
         then run.err == AsStepError(last.err) && |run.waits| == run.calls - 1
         else ended(run.calls - 1) && run.err == Some(ContextEnded) && |run.waits| == run.calls)
  }

  /** The contract leaves nothing open. */
  lemma RetryRunIsUnique(policy: Option<RetryPolicy>, script: nat -> Attempt, ended: nat -> bool, r: RetryRun,
                         s: RetryRun)
    requires IsRetryRun(policy, script, ended, r) && IsRetryRun(policy, script, ended, s)
    ensures r == s
  {
  }

  /** A step reports what its last call did, whether that came to nothing or not, and in particular
      the first success ends it; a context that ends in a pause is reported in the place of the
      error before it. Without a policy there is one call. */
  lemma ReportsLastCall(policy: Option<RetryPolicy>, script: nat -> Attempt, ended: nat -> bool, run: RetryRun)
    requires IsRetryRun(policy, script, ended, run)
    ensures run.calls == 0 <==> policy.Some? && policy.value.maxAttempts <= 0
    ensures run.calls == 0 ==> run == RetryRun(ActionResult(false, "", 0, "", 0, 0), None, 0, [])
    ensures policy.None? ==> run.calls == 1 && run.waits == []
    ensures policy.Some? ==> run.calls <= Max(policy.value.maxAttempts, 0)
    ensures run.calls > 0 ==>
      var last := script(run.calls - 1);
      && run.res == last.res
      && (run.err.None? <==> last.err.None?)
      && (run.err.Some? ==> run.err.value == ContextEnded || run.err.value == Failed(last.err.value))
      && (run.err == Some(ContextEnded) ==> ended(run.calls - 1))
      && (run.err == Some(ContextEnded) <==>
          policy.Some? && run.calls < policy.value.maxAttempts && last.err.Some? && last.res.txHash == "")
    ensures forall k: nat :: k < run.calls - 1 ==> script(k).err.Some? && script(k).res.txHash == "" && !ended(k)
  {
  }

  /** The policies validation accepts are those that make a call and never wait a negative time. */
  lemma AcceptedPolicyIff(policy: Option<RetryPolicy>, script: nat -> Attempt, ended: nat -> bool, run: RetryRun)
    requires IsRetryRun(policy, script, ended, run)
    ensures AcceptedPolicy(policy) <==> run.calls >= 1 && (policy.Some? ==> policy.value.baseDelay >= 0)
  {
  }

  /** A policy is used up exactly when every call before the last one it allows fails without a hash
      and none of its pauses is cut short; then there is a pause between any two calls. */
  lemma UsesAllAttemptsIff(p: RetryPolicy, script: nat -> Attempt, ended: nat -> bool, run: RetryRun)
    requires p.maxAttempts >= 1 && IsRetryRun(Some(p), script, ended, run)
    ensures run.calls == p.maxAttempts
       <==> forall k: nat :: k < p.maxAttempts - 1 ==> Retryable(script(k)) && !ended(k)
    ensures run.calls == p.maxAttempts ==> |run.waits| == p.maxAttempts - 1
  {
    if run.calls < p.maxAttempts {
      var k := run.calls - 1;
      assert !Retryable(script(k)) || ended(k);
    }
  }

  /** The k-th pause is the policy's own delay, doubled k times, whenever that fits a Duration. */
  lemma PausesDouble(p: RetryPolicy, script: nat -> Attempt, ended: nat -> bool, run: RetryRun, k: nat)
    requires IsRetryRun(Some(p), script, ended, run) && k < |run.waits|
    requires 0 <= p.baseDelay && p.baseDelay * Pow2(k) < 0x8000_0000_0000_0000
    ensures run.waits[k] == p.baseDelay * Pow2(k)
  {
    ProductMonotone(p.baseDelay, Pow2(k));
    DelayExactIff(p.baseDelay, k);
    ProductNonNegative(p.baseDelay, Pow2(k));
  }

  lemma ProductMonotone(a: nat, b: nat)
    requires b > 0
    ensures a * b >= a
  {
  }

  /** For an action whose broadcasts always show in the hash, a step broadcasts at most once, in
      its last call, whatever the policy: a retry never sends twice. */
  lemma BroadcastsAtMostOnce(policy: Option<RetryPolicy>, script: nat -> Attempt, ended: nat -> bool, run: RetryRun,
                             k: nat)
    requires IsRetryRun(policy, script, ended, run)
    requires forall j: nat :: script(j).broadcast ==> script(j).res.txHash != ""
    requires k < run.calls && script(k).broadcast
    ensures k == run.calls - 1
  {
  }

  /** An accepted policy makes at least one and at most MaxAttempts calls, and waits
      BaseDelay * (2^w - 1) over w pauses exactly when the last delay fits a Duration. A pause that
      the context cuts short is taken in full here. */
  lemma RetryIsBounded(policy: Option<RetryPolicy>, script: nat -> Attempt, ended: nat -> bool, run: RetryRun)
    requires AcceptedPolicy(policy) && BaseDelay(policy) < TWO_63 && IsRetryRun(policy, script, ended, run)
    ensures 1 <= run.calls <= MaxAttempts(policy)
    ensures run.calls - 1 <= |run.waits| <= run.calls && |run.waits| < MaxAttempts(policy)
    ensures var w := |run.waits|;
      Sum(run.waits) == BaseDelay(policy) * (Pow2(w) - 1) <==> w == 0 || BaseDelay(policy) * Pow2(w - 1) < TWO_63
  {
    TotalPause(BaseDelay(policy), |run.waits|);
  }

  /** schema.go:200-206 says that failures before the broadcast are retried. For a step that goes
      through Send they are not: the hash a failed Send reports is the text of the zero hash,
      which is not empty, so such a step makes one call under every accepted policy. */
  lemma SendStepsNeverRetry(policy: Option<RetryPolicy>, script: nat -> Attempt, ended: nat -> bool, run: RetryRun,
                            out: Outcome, err: Option<SendError>)
    requires AcceptedPolicy(policy) && IsRetryRun(policy, script, ended, run)
    requires script(0).res == OutcomeToResult(out, err)
    ensures run.calls == 1 && run.waits == []
  {
    SendAlwaysReportsHash(out, err);
  }

  /** A step makes a second call exactly when its first fails with an empty hash, the policy
      allows two and the pause is not cut short. */
  lemma RetriesIff(policy: Option<RetryPolicy>, script: nat -> Attempt, ended: nat -> bool, run: RetryRun)
    requires IsRetryRun(policy, script, ended, run)
    ensures run.calls >= 2 <==> Retryable(script(0)) && MaxAttempts(policy) >= 2 && !ended(0)
  {
  }
}
