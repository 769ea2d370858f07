# Web3Load: a model of its nonce, sharding, aggregation and scheduling logic

Web3Load drives many virtual users that send blockchain transactions, in one process or split
over several workers by a controller. This project models the parts of it whose correctness is
not visible in one function and proves what they promise together.

1. **Nonces.** `Nonces` and `TxEngine` are the nonce manager and the sending engine as they are
   written: classes whose methods update their fields. `SendProtocol` takes the same Sends apart
   into atomic steps and lets any number of them, and other users of the address, interleave.
   `SendSequences` looks at Sends that run one after another and proves that each of them is a run
   of the interleaved machine. `Fund` is the sequential client that pays every wallet. The chain
   (`Chains`) is what one account can observe of it: the set of nonces that are taken.
2. **Sharding.** `Division` is the one formula by which wallets and loads are split, with Go's
   truncating division. `Shards` and `Scenario` apply it to the wallet list and to the load;
   `Exclusivity` puts both together with the engine's round robin.
3. **Collecting and aggregating.** `Percentiles`, `Metrics` and `Aggregation` relate the report
   aggregated from several workers to the one a single collector of all events would have made.
   `Controller` is the registration barrier and the completion latch, over every run.
4. **Scheduling.** `LoadEngine` (constant and staged users), `ArrivalRate` (iterations at a rate
   behind a semaphore) and `Retry` (with `Actions`, what a step reports).

Nonces, wei, gas and durations are unbounded integers and rates are reals, except that the retry
delay is computed in 64-bit arithmetic. What the chain answers, how long a step takes and which
goroutine moves next are arguments or events, so every result holds for all of them.

`Prelude` holds sequence, set and string facts that have nothing to do with Web3Load.

## Where the code and its documentation differ

The model follows the code. Each difference is a proved statement, with the exact condition under
which the documentation is right.

- internal/wallet/nonce.go:13-14 speaks of strictly increasing nonces. A released nonce is issued
  again (`Nonces.ReleaseReissues`); what holds is that no nonce is held twice or issued again after
  its broadcast, and with Resync only if the value written lies above all of these
  (`SendProtocol.ResyncSafeIff`; an ordinary run that violates it is `SendProtocol.ResyncCanRewind`).
- internal/wallet/nonce.go:48-51 leaves the gap of an out-of-order release, below a nonce that already
  succeeded, for Resync to fix. Resync does not fix that one: refilling it leads to the nonce above it
  being issued again (`SendProtocol.RefillReissues`). What it reads is safe to write exactly when
  nothing is in flight and every gap lies above every broadcast (`SendProtocol.ResyncRepairsIff`).
- docs/dsl-reference.md:142-144 asks for as many wallets as the peak number of users, or `max_vus`.
  This is right for constant, soak, spike and stress loads (`Exclusivity.PeakManyWalletsSuffice`).
  For ramping even the active users can share one (`LoadEngine.PeakIsNotEnough`). As many wallets as
  the targets climb in total are enough, and they are necessary once retired users count, who may
  still be in their last iteration (`LoadEngine.RampingSharesNoWalletIff`; without these, fewer can
  do, `LoadEngine.ActiveAloneMayBeApart`);
  for arrival-rate it takes as many as there are ticks, or a cap of one
  (`ArrivalRate.ArrivalSharesNoWalletIff`).
- internal/scenario/schema.go:121-125 says shares always sum to the original. They do exactly when
  the total is not negative or divides evenly (`Division.SharesConserve`).
- internal/scenario/schema.go:200-206 says failures before the broadcast are retried. A step that
  goes through Send is never retried, because a failed Send reports the text of the zero hash as
  its transaction hash (`Retry.SendStepsNeverRetry`; exactly when a step is retried is
  `Retry.RetriesIff`).
- internal/wallet/shard.go:5-6 says no two workers hold the same wallet. With one worker configured,
  every registrant is sent all wallets (`Controller.WalletsGoOutOnceIff`).
- internal/distributed/controller.go:134-135 says WaitForCompletion waits for every registered
  worker. It does exactly when no more workers report than were configured
  (`Controller.CompletionMeansAllIff`).
- internal/distributed/worker.go:76-79 wants the controller to have a worker's last numbers. A
  progress push that arrives after the final report replaces it (`Controller.LateProgressReplacesFinal`;
  the final report is found exactly when no different one is pushed last, `Controller.FinalIsFoundIff`).
- docs/distributed.md:66 says throughput combines exactly. The sum is never too low, and exact if and
  only if every worker that counted anything ran as long as the whole (`Aggregation.ThroughputOverstates`).
- internal/scenario/validate.go accepts a load, but the worker of a cohort that is larger than the
  load can be sent a share that fails the same validation (`Scenario.AllShardsAcceptedIff`).
- internal/metrics/metrics.go:37 speaks of every executed step. A step without an error, a revert
  reason or success is counted nowhere; the total is the number of events exactly when there is no
  such step (`Metrics.SnapshotCounts`).

## Model

| member | source | states |
|---|---|---|
| Prelude.OccursAsPrefix | internal/metrics/metrics.go:83-90 | a phrase is contained in a text if and only if some rest of the text begins with it |
| Chains.FirstFree | internal/chain/evm/adapter.go:63-69 | the node's answer is free, and every nonce between the base and it is taken |
| Chains.Pending | internal/chain/evm/adapter.go:63-69 | the pending nonce is the least nonce of the account that is not taken |
| Chains.PendingIs | internal/chain/evm/adapter.go:63-69 | being free with everything below taken determines the answer |
| Chains.PendingMonotone | internal/chain/evm/adapter.go:63-69 | no accepted transaction ever moves the answer down |
| Chains.PendingAfterUse | internal/chain/evm/adapter.go:63-69 | only taking the pending nonce itself moves the answer, by exactly one unless the following nonce was queued already |
| Nonces.ReleaseReissues | internal/wallet/nonce.go:46-58 | a released nonce is the next one issued if and only if it was the last one issued |
| Nonces.ReleaseIgnoresOthers | internal/wallet/nonce.go:46-58 | a release changes the tracked nonce if and only if it is of the last one issued |
| Nonces.NonceManager.Next | internal/wallet/nonce.go:28-44 | hands out the tracked nonce, or the chain's on first use, and tracks its successor; on a fetch error nothing changes; no other address changes |
| Nonces.NonceManager.Release | internal/wallet/nonce.go:46-58 | rewinds only for the most recently issued nonce; no other address changes |
| Nonces.NonceManager.Resync | internal/wallet/nonce.go:60-72 | replaces the tracked nonce by the value read, or changes nothing if the read failed |
| SendProtocol.AllocateKeeps | internal/wallet/nonce.go:30-44 | an allocation, at any moment of any interleaving, keeps the issued nonces partitioned and unique |
| SendProtocol.ReleaseKeeps | internal/wallet/nonce.go:52-58 | so does a release, in or out of order: an out-of-order one moves its nonce to the abandoned gaps |
| SendProtocol.AcceptKeeps | internal/txengine/engine.go:100-117 | so does a broadcast, which moves the nonce from in flight to accepted |
| SendProtocol.ResyncWriteKeeps | internal/wallet/nonce.go:68-70 | so does the late write of a Resync, provided the value read earlier lies above all nonces in flight or broadcast at the moment of the write |
| SendProtocol.QuietKeeps | internal/txengine/engine.go:70-98 | so does every other step: failing at any of the four points, a dry run, reading the chain, someone else's transaction |
| SendProtocol.StepKeeps | internal/txengine/engine.go:63-123 | every step of every Send keeps the invariant, given the side condition on Resync writes only |
| SendProtocol.RunKeeps | internal/txengine/engine.go:63-123 | every run from any state that meets the invariant keeps it |
| SendProtocol.InterleavedSendsPartition | internal/wallet/nonce.go:13-58 | in every interleaved run without a Resync write, the interval from the first nonce fetched to the next to issue is the disjoint union of in flight, accepted and abandoned; no nonce is held by two Sends or held after its broadcast |
| SendProtocol.SafeResyncsPartition | internal/wallet/nonce.go:13-72 | the same with Resync as a separate read and write, as long as each written value lies above all nonces in flight or accepted |
| SendProtocol.NextNonceIsFresh | internal/wallet/nonce.go:13-17 | the nonce about to be issued in such a run is in flight nowhere and was never broadcast |
| SendProtocol.BroadcastsAreDistinct | internal/txengine/engine.go:101-117 | in such a run there are as many different accepted nonces as broadcasts: none is used twice |
| SendProtocol.WriteReissues | internal/wallet/nonce.go:28-44 | after a Resync write, further Sends starting are enough for any nonce from the written value on to be issued to a new Send |
| SendProtocol.UnsafeWriteCollides | internal/wallet/nonce.go:60-72 | any Resync write at or below a nonce in flight or accepted leads, by new Sends alone, to that nonce being issued again |
| SendProtocol.ResyncSafeIff | internal/wallet/nonce.go:60-72 | a Resync write keeps nonces unique in every continuation if and only if its value lies above all nonces in flight or accepted |
| SendProtocol.ResyncCanRewind | internal/txengine/engine.go:101-116 | an ordinary run of three Sends and one external transaction in which a Resync makes two Sends hold the same nonce |
| SendProtocol.OwnChainKept | internal/wallet/nonce.go:13-17 | while nobody else uses the address, the chain has taken exactly the nonces this program broadcast |
| SendProtocol.ResyncIsNoOpIff | internal/wallet/nonce.go:60-72 | then Resync reads the tracked value if and only if nothing is in flight and nothing was abandoned, and otherwise a lower one |
| SendProtocol.HeldNoncesAreUntaken | internal/txengine/engine.go:101-108 | then, however the Sends interleave, no Send holds a nonce the chain has taken, so none is refused as used |
| SendProtocol.GapsOnlyGrow | internal/wallet/nonce.go:48-51 | without a Resync write a gap of an out-of-order release is never filled, and no broadcast is ever withdrawn |
| SendProtocol.ResyncReadsLeastOpen | internal/wallet/nonce.go:60-67 | with nobody else on the address, Resync reads the least nonce in flight or abandoned, if there is one |
| SendProtocol.ResyncRepairsIff | internal/wallet/nonce.go:48-51 | then the value it reads is safe to write if and only if nothing is in flight and every broadcast lies below every gap |
| SendProtocol.ReadValueStays | internal/wallet/nonce.go:63-70 | a value once read stays as it is until its Resync ends |
| SendProtocol.RefillReissues | internal/wallet/nonce.go:48-72 | a Resync that reads while the chain lacks a nonce below a broadcast leads, whenever its write comes, to that broadcast's nonce being issued to a new Send |
| TxEngine.ClampRespectsLimit | internal/txengine/engine.go:130-147 | the fee cap is the largest one within both the suggestion and the limit in gwei, neither cap is raised, and the tip stays within the fee cap if and only if it did before or the limit was enforced |
| TxEngine.GweiToWei | internal/txengine/engine.go:149-152 | the largest whole number of wei within the limit in gwei |
| TxEngine.NonceErrorTexts | internal/txengine/engine.go:125-128 | an error is a nonce error if and only if "nonce too low" or "nonce too high" occurs in its text |
| TxEngine.TimePasses | internal/txengine/engine.go:154-177 | the i-th poll is at least i intervals after the start |
| TxEngine.DeadlineReached | internal/txengine/engine.go:168-175 | polling cannot go past timeout/interval + 2 rounds without deciding |
| TxEngine.WaitForConfirmation | internal/txengine/engine.go:154-177 | the loop ends in the first round that decides, within that bound; no error if and only if that round has a receipt, whose status, gas and time are reported; otherwise the error says whether the deadline or the context ended it; hash and submit latency are kept |
| TxEngine.PreparedAsAsked | internal/txengine/engine.go:63-93 | a transaction is submitted if and only if all four steps before it succeed; it is what was asked for, under the allocated nonce, with the caller's gas limit or the estimate plus a fifth |
| TxEngine.PreparedFees | internal/txengine/engine.go:70-77 | it carries the suggested fees unchanged, unless a limit is configured and they exceed it; then the largest fee cap within the limit, and the smaller of the tip and that |
| TxEngine.PreparedFailsFirst | internal/txengine/engine.go:63-93 | the error names the first step that fails |
| TxEngine.ReportMatchesChain | internal/txengine/engine.go:63-123 | a Send without error outside a dry run is exactly one that used its nonce up; every other leaves the chain alone and makes its nonce or the chain's pending one next; a dry run never reaches the node |
| TxEngine.ReportSays | internal/txengine/engine.go:63-123 | the error or the node's message with an empty outcome, a dry run's success without a hash, or the hash and the time of the submission |
| TxEngine.Adapter.NonceAt | internal/chain/evm/adapter.go:63-69 | answers the nonce that is not taken and below which all are, or fails |
| TxEngine.Adapter.SendRawTransaction | internal/txengine/engine.go:101 | an accepted transaction takes its nonce, a refused one changes nothing |
| TxEngine.Engine.Prepare | internal/txengine/engine.go:63-93 | what is prepared, and that every failure gives the nonce back and success keeps it allocated |
| TxEngine.Engine.Submission | internal/txengine/engine.go:100-117 | acceptance takes the nonce on the chain; a refusal releases it, and after a nonce error a successful Resync tracks the chain's pending nonce |
| TxEngine.Engine.Send | internal/txengine/engine.go:63-123 | on every exit path: the outcome and error, the account's new state, that no other account changed, and the one transaction, if any, that reached the node |
| SendSequences.TurnPays | internal/txengine/engine.go:101-116 | a nonce error lowers the drift between tracked and chain nonce unless something outside disturbed it |
| SendSequences.NonceErrorsAreBounded | internal/txengine/engine.go:104-108 | over any sequence of Sends, from any drift, there are at most as many nonce errors as disturbances, counting the initial drift |
| SendSequences.ResyncHeals | internal/txengine/engine.go:104-108 | from any drift, the Send after a nonce error with a successful Resync does not fail with a nonce error |
| SendSequences.FailedResyncRepeats | internal/txengine/engine.go:109-110 | if the Resync fails, the same nonce is issued again and still is not the pending one |
| SendSequences.SoleUserStep | internal/txengine/engine.go:63-123 | with one user and nobody else on the address, a Send uses the pending nonce, cannot fail with a nonce error, and advances the chain by one exactly if it broadcast |
| SendSequences.SoleUserIsContiguous | internal/txengine/engine.go:63-123 | over any sequence of such Sends failing anywhere, the broadcast nonces are consecutive from the chain's pending nonce, tracked and chain nonce agree after each Send, and there is no nonce error |
| SendSequences.SendRefinesProtocol | internal/txengine/engine.go:63-123 | started at any moment among other Sends and left alone, a Send, with or without an estimate, takes the interleaved machine's steps to its end and to exactly the account the sequential Send computes |
| SendSequences.FailureRefinesProtocol | internal/txengine/engine.go:70-93 | the same for a Send that fails before the submission |
| SendSequences.RefusalRefinesProtocol | internal/txengine/engine.go:102-115 | the same for a refused one, with and without Resync |
| Fund.AwaitedAsConfirmed | internal/wallet/fund.go:83-102 | funding's polling loop reports what Send's would on the same answers |
| Fund.WaitForReceipt | internal/wallet/fund.go:83-102 | the loop ends in the first round that decides, at half a second each within the timeout; an error unless that round has a receipt whose status is not 0, and which one |
| Fund.FirstNonceIs | internal/wallet/fund.go:42-47 | the nonce the transfers start from is the chain's answer to the first fetch that succeeds, whatever it would answer later |
| Fund.PaidInOrder | internal/wallet/fund.go:39-79 | exactly the wallets whose nonce, fees, signature and submission work out are paid, each once, in wallet order |
| Fund.TransfersAreConsecutive | internal/wallet/fund.go:21-69 | the k-th funding transfer goes from the funder to the k-th wallet that could be paid, with the amount, 21000 gas and the fees suggested for it, under the k-th nonce from the first fetched one: no gap, no repeat |
| Fund.ReceiptSays | internal/wallet/fund.go:40-78 | a result names its wallet, carries its transfer's hash or none, and reports the first step that failed, or how the confirmation ended |
| Fund.FundWallets | internal/wallet/fund.go:24-81 | for every pattern of failures: one result per wallet in order with its hash and error, and exactly these transfers broadcast |
| Fund.PayOne | internal/wallet/fund.go:48-78 | one transfer keeps its nonce if and only if it was broadcast |
| Division.StartStep | internal/wallet/shard.go:14-16 | the closed form of the sum of shares before an index grows by the next share |
| Division.StartEnd | internal/wallet/shard.go:27-33 | the shares of all indices sum to the total |
| Division.StartMonotone | internal/wallet/shard.go:14-16 | starts never move back |
| Division.DivideIsEven | internal/wallet/shard.go:4-5 | shares differ by at most one and earlier ones are never smaller |
| Division.DividePositive | internal/scenario/schema.go:133-139 | a worker gets something if and only if the total reaches its index |
| Division.DivideMonotone | internal/scenario/schema.go:133-139 | a larger total never gives any worker less |
| Division.NextUnit | internal/scenario/schema.go:133-139 | one more unit goes to the worker right after those that took up the remainder |
| Division.SharesConserve | internal/scenario/schema.go:121-139 | the shares sum back to the total if and only if it is not negative or divides evenly |
| Shards.ShardWallets | internal/wallet/shard.go:9-25 | the loop computes the slice between two closed-form starts, cut off at the end of the list |
| Shards.ClampsNeverFire | internal/wallet/shard.go:17-23 | neither cut-off applies to a worker of the cohort; a late one starts at the end |
| Shards.ShardSize | internal/wallet/shard.go:3-5 | a worker of the cohort gets exactly its share, a late one nothing |
| Shards.ShardsAreEven | internal/wallet/shard.go:3-5 | sizes never grow with the index and differ by at most one within the cohort |
| Shards.ShardsCoverWallets | internal/wallet/shard.go:3-5 | the cohort's slices one after another are the wallet list |
| Shards.ShardsAreDisjoint | internal/wallet/shard.go:5-8 | two workers, in the cohort or late, never hold the same wallet |
| Shards.ShardIsDistinct | internal/wallet/shard.go:9-25 | no worker is given a wallet twice |
| Scenario.ResolveStages | internal/scenario/schema.go:99-119 | the expansion loop gives the staircase, spike and ramping lists, and an error for other kinds |
| Scenario.StaircaseClimbs | internal/scenario/schema.go:109-115 | a stress expansion is not empty, climbs strictly from Start, ends at Max and holds each plateau equally long |
| Scenario.StaircaseSteps | internal/scenario/schema.go:109-115 | its plateaus are Start plus multiples of Step below Max, one after another, and then Max |
| Scenario.ExpansionSays | internal/scenario/schema.go:99-119 | a spike is baseline, target, baseline, each for its own duration; a ramping load has its own stages; other kinds have none |
| Scenario.FirstBadStageFinds | internal/scenario/validate.go:142-149 | the stage check passes if and only if all stages are good |
| Scenario.FirstBadStageIsFirst | internal/scenario/validate.go:142-149 | its complaint names the first bad stage, duration before target |
| Scenario.AcceptedStagesAreGood | internal/scenario/validate.go:89-112 | a staged load is accepted if and only if its expansion is not empty, all its stages are good and its own parameters are in order |
| Scenario.AcceptedIff | internal/scenario/validate.go:80-131 | constant, soak and arrival-rate loads are accepted if and only if their numbers are in range; unknown kinds never are |
| Scenario.ComplaintIsTrue | internal/scenario/validate.go:80-151 | every complaint names something that is wrong with the load, for its kind |
| Scenario.Shard | internal/scenario/schema.go:129-167 | every branch of sharding, with the loop over stages |
| Scenario.AcceptedCanShard | internal/scenario/schema.go:154-166 | an accepted load's expansion ends and sharding it never fails |
| Scenario.ShardThenResolve | internal/scenario/schema.go:154-163 | resolving a shard gives as many stages as the original, each as long as the original's and with its share of the target |
| Scenario.ShardKeepsTheRest | internal/scenario/schema.go:129-163 | a shard changes nothing but the numbers that are divided; pre-allocation is cut to the shard's cap and no further; a staged shard is a ramping load with nothing but its stages; one worker gets the load itself |
| Scenario.ShardRefusesIff | internal/scenario/schema.go:129-166 | sharding fails if and only if there are two or more workers and the kind is unknown |
| Scenario.ShardsConserveLoad | internal/scenario/schema.go:121-128 | the shards' users, rates, caps and every stage's targets sum to the original's |
| Scenario.ShardAcceptedIff | internal/scenario/validate.go:80-132 | a worker of the cohort is sent a load that validates again if and only if the load is staged or reaches its index |
| Scenario.AllShardsAcceptedIff | internal/scenario/validate.go:80-132 | all shards validate again if and only if the load is staged, or the cohort is no larger than the users, or than rate and max_vus |
| LoadEngine.AcceptedLoadStarts | internal/load/engine.go:40-63 | Run takes none of its error branches on an accepted load, unless there is no wallet |
| LoadEngine.StartErrorIff | internal/load/engine.go:40-63 | any load is refused at the start only for want of a wallet or for an unknown kind |
| LoadEngine.ScaledReaches | internal/load/engine.go:93-111 | scaling reaches its target, spawns only what is missing, and retires only users spawned after all those it keeps |
| LoadEngine.RetiresYoungestFirst | internal/load/engine.go:82-87 | scaling down cancels exactly the users it drops, the youngest first |
| LoadEngine.StagesReach | internal/load/engine.go:122-132 | after any stages the active number is the last target and as many users were spawned as the targets climbed in total |
| LoadEngine.StoppedCancelsAll | internal/load/engine.go:113-120 | after stopping, every user ever spawned has been cancelled exactly once |
| LoadEngine.StagesEnd | internal/load/engine.go:122-136 | that holds on the normal and the cancelled exit of any stage list, with exactly the climb of the stages entered spawned |
| LoadEngine.Engine.NextWallet | internal/load/engine.go:198-201 | wallets go out round robin |
| LoadEngine.Engine.RunConstant | internal/load/engine.go:65-80 | spawns exactly the configured users on consecutive wallets, cancels each once, and returns an error if and only if the caller's context was cancelled |
| LoadEngine.Engine.ScaleTo | internal/load/engine.go:93-111 | both loops take the cancel stack, the order of cancellation and the cursor to the specified state |
| LoadEngine.Engine.StopAll | internal/load/engine.go:113-120 | cancels the whole stack |
| LoadEngine.Engine.RunRamping | internal/load/engine.go:88-137 | on the normal and on the cancelled exit: the stages entered, then everything stopped; an error if and only if cancelled |
| LoadEngine.Engine.RunStages | internal/load/engine.go:122-136 | a stage list, cancelled in stage k or not, spawns exactly the climb of stages 0 to k, or of all |
| LoadEngine.Engine.Run | internal/load/engine.go:40-63 | for every load that runs users and every exit: the error, every spawned user cancelled exactly once, nobody active, and as many spawned as the load asks for, or as the stages up to the interrupted one climb |
| LoadEngine.RunningShareNoWalletIff | internal/load/engine.go:198-201 | however long retired users linger, no two running users share a wallet if and only if no more were spawned than there are wallets |
| LoadEngine.RampingSharesNoWalletIff | internal/load/engine.go:88-132 | over a whole stage list, retired users that may still run included, that holds if and only if the targets' total climb is at most the number of wallets |
| LoadEngine.PeakIsNotEnough | docs/dsl-reference.md:140-144 | a stage list and a number of wallets equal to its peak for which two active users share one |
| LoadEngine.ActiveAloneMayBeApart | internal/load/engine.go:82-87 | a stage list that climbs to more than the wallets, whose active users never share one while a retired one that may still run shares with an active one |
| LoadEngine.ClimbOfRise | internal/scenario/schema.go:109-115 | targets that never fall climb no more than their last |
| LoadEngine.ClimbOfSpike | internal/scenario/schema.go:103-108 | a spike climbs no more than its target |
| Exclusivity.NoSharedWalletIff | internal/load/engine.go:198-201 | for every accepted load that runs users, over all workers: no two users are ever given the same wallet if and only if no worker that has wallets spawns more users than it has |
| Exclusivity.RunWorker | internal/distributed/worker.go:64-73 | the users and wallets these results speak of are those a worker's engine spawns, all of them in a completed run and an initial piece in a cancelled one |
| Exclusivity.ShardSpawnsItsShare | internal/load/engine.go:65-111 | over its whole run a worker spawns exactly its share of the peak |
| Exclusivity.SpikeSpawns | internal/scenario/schema.go:103-108 | the same for a divided spike |
| Exclusivity.StressSpawns | internal/scenario/schema.go:109-115 | the same for a divided staircase |
| Exclusivity.PeakManyWalletsSuffice | docs/dsl-reference.md:140-144 | for constant, soak, spike and stress loads over any number of workers, as many wallets as the peak keep all users of all workers apart; if every worker gets a wallet they are also necessary |
| Exclusivity.TooFewWallets | internal/wallet/shard.go:9-33 | with fewer, some worker has more users than wallets |
| ArrivalRate.AcceptedIntervalIsPositive | internal/load/engine.go:148-157 | an accepted load never divides by a zero rate or ticks without a period, and a unit has room for exactly the rate unless the period had to be raised |
| ArrivalRate.RunKeeps | internal/load/engine.go:162-195 | every interleaving of ticks, starts and leaving iterations keeps the counters tied to the iterations in flight |
| ArrivalRate.SchedulerIsBounded | internal/load/engine.go:139-147 | in every run at most MaxVUs iterations are in flight, ticks are starts plus drops, the semaphore never exceeds the wait group, and both are empty at return |
| ArrivalRate.LeavingNeverBlocks | internal/load/engine.go:185-189 | a finished iteration never waits for the semaphore, and the wait group never goes negative |
| ArrivalRate.DropsOnlyWhenFull | internal/load/engine.go:181-193 | a tick is dropped if and only if MaxVUs iterations are in flight |
| ArrivalRate.NothingStartsAfterDone | internal/load/engine.go:169-179 | once the context has ended, nothing starts and no tick is counted in any continuation |
| ArrivalRate.DrainsToReturn | internal/load/engine.go:171-179 | from then on the iterations in flight can always get through, and the scheduler returns |
| ArrivalRate.LapSharesWallet | docs/dsl-reference.md:140-144 | a run with two iterations in flight that share a wallet, for any number of wallets and any cap from two on |
| ArrivalRate.ArrivalSharesNoWalletIff | internal/load/engine.go:181-201 | over every run of at most n ticks no two iterations in flight share a wallet if and only if the cap is at most one or n is at most the number of wallets |
| ArrivalRate.Runner.OnTick | internal/load/engine.go:180-193 | the scheduler's variables after a tick, admitted or dropped |
| ArrivalRate.Runner.Start | internal/load/engine.go:183-185 | the k-th iteration runs with wallet k modulo the number of wallets |
| ArrivalRate.Runner.OnGiveBack | internal/load/engine.go:187 | the semaphore after a finished iteration |
| ArrivalRate.Runner.OnLeave | internal/load/engine.go:186 | the wait group after it |
| Actions.Hex | internal/action/builtin.go:182 | the text of every hash, the zero hash included, has 66 characters |
| Actions.HexRoundTrip | internal/action/builtin.go:182 | the text of a 32-byte hash is 0x and the digits that spell the hash |
| Actions.SendAlwaysReportsHash | internal/action/builtin.go:180-199 | every Send, failed or not, reports a non-empty hash |
| Actions.ResultSays | internal/action/builtin.go:180-199 | a failed Send is neither success nor revert; one that waited is what its receipt said, one that did not is a success; gas, latencies and hash are the Send's |
| Actions.ReportedKind | internal/action/builtin.go:190-194 | a confirmed step is a success if and only if the status is 1, and a revert if and only if it is 0 |
| Retry.DelayExactIff | internal/load/engine.go:284 | the k-th delay is the base doubled k times if and only if that fits a Duration, and otherwise less |
| Retry.DelayWraps | internal/load/engine.go:284 | a delay that does not fit is what its lower 64 bits leave of it |
| Retry.TotalPause | internal/load/engine.go:284-291 | the time waited in n pauses is base times 2^n - 1 if and only if the last delay fits a Duration, and never more; a delay that wrapped below zero is no wait |
| Retry.ExecuteWithRetry | internal/load/engine.go:265-294 | which call gives the result, which calls came before it, and how long was waited, for every policy and every behaviour of the action |
| Retry.RetryRunIsUnique | internal/load/engine.go:265-294 | that description fixes the run |
| Retry.ReportsLastCall | internal/load/engine.go:265-293 | the result and error are those of the last call, or the end of the context in the pause after it; all calls before failed without a hash; without a policy there is one call |
| Retry.AcceptedPolicyIff | internal/scenario/validate.go:170-177 | a policy is accepted if and only if a step under it makes a call and its base delay is not negative |
| Retry.UsesAllAttemptsIff | internal/load/engine.go:275-292 | all attempts a policy allows are made if and only if all before the last fail without a hash and no pause is cut short |
| Retry.PausesDouble | internal/load/engine.go:284 | the k-th pause is the policy's base delay doubled k times, whenever that fits a Duration |
| Retry.BroadcastsAtMostOnce | internal/load/engine.go:259-264 | if a broadcast always shows in the hash, a step broadcasts at most once, in its last call |
| Retry.RetryIsBounded | internal/scenario/validate.go:170-177 | an accepted policy makes between one and MaxAttempts calls, and when its pauses sum to the doubling total |
| Retry.SendStepsNeverRetry | internal/action/builtin.go:180-189 | a step that goes through Send makes one call under every accepted policy |
| Retry.RetriesIff | internal/load/engine.go:259-292 | a step makes a second call if and only if its first failed with an empty hash, the policy allows it and the pause was not cut short |
| Percentiles.SortedCopySorts | internal/metrics/metrics.go:137-138 | the sorted copy is sorted and holds the same samples |
| Percentiles.SortedRank | internal/metrics/metrics.go:146-155 | in a sorted list the value at k is at most m if and only if more than k values are |
| Percentiles.PercentileRank | internal/metrics/metrics.go:133-155 | the percentile is a sample, and is at most m if and only if more than n*p/100, rounded down, of the samples are |
| Percentiles.PercentileIndex | internal/metrics/metrics.go:150-153 | the cut-off in the index formula never applies below 100 |
| Percentiles.CountOverParts | internal/distributed/controller.go:148-152 | if no worker's percentile exceeds m, more than p hundredths of all samples together do not |
| Percentiles.MaxPercentileIsPessimistic | internal/distributed/controller.go:148-152 | the largest percentile of any number of workers, some without samples, is never below that of all samples |
| Percentiles.MaxPercentileCanOverstate | internal/distributed/controller.go:148-152 | it can be strictly above it |
| Percentiles.PercentilePermuted | internal/metrics/metrics.go:133-144 | the order in which samples came does not matter |
| Percentiles.MaxAverageIsPessimistic | internal/distributed/controller.go:172-174 | the largest average of any number of workers is never below that of all samples |
| Metrics.ReportedNonceErrorsResynced | internal/metrics/metrics.go:71-81 | a refused Send is reported as a nonce error if and only if it took the branch that resyncs |
| Metrics.ClassifyErrorSays | internal/metrics/metrics.go:71-81 | which phrase in an error's text gives which kind, and in which order they are looked for |
| Metrics.QuantilesRank | internal/metrics/metrics.go:133-144 | each reported latency is the least sample that the stated share does not exceed, and the three are in order |
| Metrics.GasStatsRank | internal/metrics/metrics.go:157-175 | the gas average is the samples' mean and its p95 their percentile |
| Metrics.SumValuesAny | internal/metrics/metrics.go:125-131 | the sum over the error kinds does not depend on the order of the map |
| Metrics.SumErrors | internal/metrics/metrics.go:125-131 | the loop computes that sum for any order |
| Metrics.ComputeGasStats | internal/metrics/metrics.go:157-175 | the loop over the sorted samples computes the specified statistics |
| Metrics.Collector.RecordStep | internal/metrics/metrics.go:41-63 | the counters and samples after a step of each kind |
| Metrics.Collector.RecordError | internal/metrics/metrics.go:65-69 | the counters after an error of any kind |
| Metrics.Collector.Snapshot | internal/metrics/metrics.go:94-123 | the report on everything recorded so far, with throughput over the elapsed time |
| Metrics.SummaryPermuted | internal/metrics/metrics.go:37-38 | events recorded in another order amount to the same |
| Metrics.TallyHolds | internal/metrics/metrics.go:41-69 | after any history, each error kind has its number of events and each series exactly its positive samples |
| Metrics.SnapshotCounts | internal/metrics/metrics.go:55-62 | the total is the number of events but for steps without error, revert reason or success, and equals the number of all events if and only if there is no such step |
| Metrics.SnapshotSays | internal/metrics/metrics.go:41-131 | over any history, event by event: what reverts, nonce errors, RPC errors and timeouts count, and what the success rate and throughput are taken of |
| Metrics.StatisticsSay | internal/metrics/metrics.go:45-53 | over any history, each latency and the gas statistics are those of its own positive measurements |
| Metrics.TallyMeasures | internal/metrics/metrics.go:45-53 | the collector holds exactly these, in order |
| Metrics.NoSamplesNoStatistics | internal/metrics/metrics.go:133-160 | without samples, latencies and gas statistics are zero |
| Metrics.RateTimesTotal | internal/metrics/metrics.go:101-104 | the success rate is in percent of the total, and zero without any |
| Metrics.PerSecond | internal/metrics/metrics.go:105-108 | throughput is per second, and zero if no time has passed |
| Aggregation.FoldedPermuted | internal/distributed/controller.go:162-181 | the fold over the reports does not depend on their order |
| Aggregation.Aggregate | internal/distributed/controller.go:153-186 | the loop gives the same report, under the controller's scenario name if it has one, for every order in which the map is walked |
| Aggregation.AggregateTakesLargest | internal/distributed/controller.go:169-179 | whatever the reports say, duration, each latency and the gas percentile are the largest among them, or zero |
| Aggregation.AggregateTakesLargestAverage | internal/distributed/controller.go:172-174 | so is the gas average |
| Aggregation.CountsAddUp | internal/distributed/controller.go:145-148 | the folded counts and weighted rates are those of all workers' events one after another |
| Aggregation.AggregateCountsExactly | internal/distributed/controller.go:145-148 | however the events were split and interleaved, the aggregate's total, reverts, nonce errors, RPC errors and success rate equal those of one collector of everything |
| Aggregation.AggregateIsPessimistic | internal/distributed/controller.go:148-152 | in the same setting no percentile of either latency, no gas percentile and no gas average of the aggregate is below that of one collector of everything |
| Aggregation.ThroughputOverstates | docs/distributed.md:66-69 | the summed throughput of workers that ran no longer than the whole is never below that of one collector of everything, and equal if and only if every worker that counted anything ran as long |
| Controller.StepKeeps | internal/distributed/controller.go:63-132 | every step of every handler keeps the barrier and the latch consistent |
| Controller.RunKeeps | internal/distributed/controller.go:63-132 | so does every run |
| Controller.RegistrationsAdd | internal/distributed/controller.go:70-108 | in every run, registrations keep their order, and waiting, answered and given-up ones make up all of them |
| Controller.AssignmentSays | internal/distributed/controller.go:85-104 | an assignment's index and count say which part of the load and of the wallets it carries |
| Controller.CohortGetsEverything | internal/distributed/controller.go:85-104 | the cohort's assignments, in order of registration, are all the wallets and all the users, or all the rate |
| Controller.BarrierHolds | internal/distributed/controller.go:58-84 | in every run the barrier opens once, if and only if enough workers have registered; nobody is answered before; answers carry different indices and their own shards |
| Controller.WalletsGoOutOnceIff | internal/wallet/shard.go:5-12 | in every run, however many workers register, no wallet goes out in two responses, if and only if the controller was started for two or more workers or has no wallet |
| Controller.SoleWorkerAndLateOne | internal/wallet/shard.go:10-12 | a run in which a controller for one worker answers two registrants with all wallets each |
| Controller.ResponsesApartIff | internal/distributed/controller.go:99-104 | in one run, no two answers overlap if and only if two or more workers were configured, at most one was answered, or there is no wallet |
| Controller.WorkersShareNoWallet | internal/wallet/shard.go:5-8 | in every run for two or more workers with as many wallets as the peak, no two users of any answered workers hold the same wallet |
| Controller.DoneWorkersAre | internal/distributed/controller.go:118-126 | the done set is the set of ids that reported done |
| Controller.LatchHolds | internal/distributed/controller.go:118-126 | in every run the latch closes once, if and only if enough different ids reported done, and each of them has a result |
| Controller.CompletionMeansAllIff | internal/distributed/controller.go:134-143 | WaitForCompletion returns only after all workers that report have reported done, in every run, if and only if there are no more of them than configured |
| Controller.AggregateSeesLast | internal/distributed/controller.go:118-119 | what Aggregate finds for a worker is the report it pushed last, done or not |
| Controller.FinalIsFoundIff | internal/distributed/worker.go:75-82 | a worker's final report is what Aggregate finds if and only if the worker pushes no report after it, or a last one that says the same |
| Controller.LateProgressReplacesFinal | internal/distributed/worker.go:67-82 | a progress push after the final report replaces it while the worker stays done |
| Controller.Server.Register | internal/distributed/controller.go:70-77 | index, registration and barrier after a registration |
| Controller.Server.Respond | internal/distributed/controller.go:79-108 | the assignment answered after the barrier, or that the request gave up |
| Controller.Server.ReceiveMetrics | internal/distributed/controller.go:111-132 | results, done set and latch after a push |
| Controller.Server.AggregateResults | internal/distributed/controller.go:153-186 | the aggregate of the latest results, in any order |

## Left out

- Wrap-around of 64-bit nonces, gas sums, sample products and the wallet cursor, and of `target += step` in the stress expansion: integers are unbounded there.
- TxEngine.ClampRespectsLimit: the cap in gwei is an exact real; the rounding of floats on the way to wei is not modelled.
- Rounding of the success rate, the throughput and the gas average: all are exact reals.
- Metrics.Collector.Snapshot: takes the elapsed time as an argument.
- Percentiles.SortedCopySorts: sort.Slice is represented by a function; which algorithm it uses is library behaviour.
- Real time: tickers, sleeps and deadlines are events or arguments. The polling loops are given answers at least one positive polling interval apart that reach past the deadline.
- TxEngine.Adapter.SendRawTransaction: an RPC error means that the transaction was not accepted; a transaction accepted although the answer was lost appears in the sequences and in the interleaved machine only as someone else's transaction with that nonce before the error; one dropped from the mempool is not modelled.
- SendProtocol.StepKeeps: the machine is about one address; that methods of the nonce manager leave other addresses alone is in their contracts.
- Interleaving is modelled on values, in the machines of `SendProtocol`, `ArrivalRate` and `Controller`; the classes beside them take one atomic step per method.
- LoadEngine.Engine.Run: arrival-rate loads are not dispatched here; their scheduler is the machine of `ArrivalRate`.
- The step loop of an iteration (runIteration), think pauses, saved values and variable substitution.
- ArrivalRate.Runner.OnTick: the scheduler's exit, which waits for the group and returns, is an event of the machine and not a method.
- HTTP, JSON and YAML encoding, the command line, logging, telemetry, Prometheus and report rendering: a request that does not decode is an event without effect.
- Keystore, key parsing, signing and ABI packing: a funder key is either usable or not, and signing succeeds or fails.
- Plugins, assertions, coercion of arguments, balance and contract actions beyond what they report of a Send.
- internal/rpc/retry.go, whose loop is that of executeWithRetry.
