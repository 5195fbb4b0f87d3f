# load-reth: a verified model

load-reth is an execution client for the Load network: an Ethereum node with up to 1024 blobs in a
block, a constant `prev_randao`, and a backpressure gate in front of its RPC methods. This project
models the parts of it in which a mistake is easiest to make and hardest to see, and proves what
they promise.

| files | what they model |
|---|---|
| `Gate`, `GateSafety`, `GateLinearizable`, `GateStale`, `GateLockFree`, `GateAnswers`, `GateProgress` | The lock-free gate as a step system with any number of request futures. Steps are the atomic operations (relaxed load, compare-exchange, subtraction, repair store), the inner service answering, and a future being dropped at any await point. A relaxed load returns any earlier value of the counter. |
| `Batch`, `GateBatch` | The middleware's handling of one call and of a batch with a guarded call, and its agreement with the batch futures of the gate's step system. |
| `Pool`, `Selection`, `SelectionInvariants`, `SelectionSteps`, `SelectionResults`, `SelectionCancel`, `SelectionCompleteness` | The pool's best-transactions iterator and the payload builder's selection loop, with its six ways to skip a transaction. |
| `Builder` | One whole build, the empty build, and sequences of builds. |
| `BlobFee`, `BlobFeeCeiling`, `EvmEnv` | The blob fee loop of EIP-4844 (section "Helpers") in u128, its exact value at Load's clamp, and the overrides of the EVM environment. |
| `ChainSpec` | Genesis validation, fork activation, blob parameters, the builder's blob cap. |
| `Payload`, `Validator`, `Engine` | Attributes, built payloads, conversion guards, RPC and validator guards, and the engine pipeline as a state machine. |

## How the model is built

Code that changes state is imperative here: `GenesisConfig`, `EvmEnv`, `BestTransactions`,
`BlockInProgress` and `BatchResponseBuilder` are classes, and the selection loop, the batch loop, the
fork loop and the fee loop are loops. Each of their methods is proved against a specification
function or a property, and the results are proved about those.

What the node calls but does not contain is a value that the theorems quantify over, restricted by
a named contract:

- `ExecutorContract`: execution succeeds only at the sender's exact nonce and with fees that cover
  the base fee, uses at most the gas limit, raises that nonce by at least one and lowers none; an
  executed blob transaction has a hash (EIP-4844, section "Specification"); a nonce is called too low
  only if it is.
- `BlobStoreContract`: a pooled sidecar has exactly its transaction's versioned hashes. The store may
  answer differently in every iteration, and so may the cancellation flag.
- `FeedContract`: the pool feeds each sender's transactions with consecutive nonces starting at or
  below the sender's nonce, in widths of u64 and u128, with gas limits that leave room for a whole
  block below 2^64 (`GasCheckIsExact` shows that this is the exact condition for the u64 check), and
  with hashes and encoded lengths that 64-bit counters can count. All counters of the loop wrap in the
  model as they do in the code, and it is proved that they never do.
- Upstream checks behind the Load guards are arbitrary verdicts.

Upstream behaviour that the model states itself: a sidecar of the other variant is dropped when
pushed; a payload is better when none is held or it earns strictly more; `mark_invalid` silences a
sender for good; `skip_blobs` withholds blob transactions and marks their senders; the request
accessor of an execution payload sees a list of requests but not a hash in its place; the batch
buffer adds one byte to each response and starts with one.

## Where the code does less than its documentation says

- The gate admits at most the limit in every interleaving, but a refusal can rest on a stale counter
  value: `StaleLoadCanRefuseAnIdleGate` gives such a run, `RunRefinesSemaphore` says that the gate
  behaves as an atomic semaphore exactly when refusals happen while it is full, and
  `RunRefinesLateSemaphore` says what every run is: a semaphore whose refusals alone may be late.
- `guard_sidecars` is documented as a cap on blobs (`src/engine/payload.rs:6`) but counts sidecars.
  `GuardCapsBlobsOnlySingly` shows that it caps blobs only if each sidecar carries at most one; for the
  node's own payloads the cap comes from the selection loop.
- The fork gate on Prague fields (`src/engine/validator.rs:135-139`) sees only a list of requests.
  `ForkGateSeesOnlyLists` says that Prague fields pass it before Prague exactly when they hold a hash;
  `HashPassesTheForkGate` is an instance. It needs a chain put together with the public constructor of
  `LoadChainSpec`: on a chain made from a genesis Prague is active from the start, and
  `ForkGateIsIdleOnGenesisChains` says that the fork gate refuses nothing there.
- From Osaka on the chain names the upstream Osaka blob parameters, which the builder's cap follows and
  the EVM environment does not: `ParamsAgreeUntilOsaka` and `CapOfValidatedChain` say exactly when.
- Local attributes on a parent at the last u64 timestamp wrap to timestamp zero and do not build
  (`LocalAttributesAreBuildable`); on every other parent they do.

## Model

| member | source | states |
|---|---|---|
| `Gate.ClassifyIsExact` | src/rpc/backpressure.rs:244-247 | A request is guarded by a method's gate if and only if it names that method and the method's limit is not zero. |
| `GateSafety.StepKeepsInv` | src/rpc/backpressure.rs:249-277 | Every atomic step and every future drop, whatever version a load returns, keeps: each counter equals its live permits, all versions stay within the limit and neighbouring versions differ by one, each future owns exactly the permit its position demands. |
| `GateSafety.CounterIsLivePermits` | src/rpc/backpressure.rs:249-277 | In every reachable state each counter is the number of live permits and at most the limit; no update is lost or wraps; a permit being dropped finds a positive counter, so the repair store is never reached. |
| `GateSafety.PermitLifetime` | src/rpc/backpressure.rs:154-206 | A future, single call or batch, owns at most one permit, and owns it exactly while its guarded call is in the inner service or the permit is being dropped, through completion, future drop and early batch return. |
| `GateSafety.InnerServiceIsWithinLimit` | src/rpc/backpressure.rs:154-166 | In every reachable state at most the limit of futures are in the inner service under a method's guard. |
| `GateSafety.QuiescentMeansZero` | src/rpc/backpressure.rs:312-322 | When no guarded call is in progress every counter is zero. |
| `GateSafety.DisabledGateIsUntouched` | src/rpc/backpressure.rs:244-247 | The gate of a method with limit zero is never written in any run. |
| `GateLinearizable.RunRefinesSemaphore` | src/rpc/backpressure.rs:249-277 | The admissions, refusals and releases of a run, at their linearization points, are a run of the atomic counting semaphore if and only if every refusing load happens while the gate is full; the semaphore then holds exactly the live permits. |
| `GateLinearizable.Linearizable` | src/rpc/backpressure.rs:249-267 | With loads that return the current value, every interleaving is a run of the atomic semaphore. |
| `GateLinearizable.OneDecisionPerCall` | src/rpc/backpressure.rs:249-267 | In every prefix of every run each future has exactly one admission or refusal for each try_acquire it began, except one still in the loop. |
| `GateStale.RunRefinesLateSemaphore` | src/rpc/backpressure.rs:249-277 | Every coherent run is a run of a semaphore that admits and releases on its current count and refuses only on a full count no older than any the future has been seen to read; the events tell every value each counter has had. |
| `GateStale.StaleLoadCanRefuseAnIdleGate` | src/rpc/backpressure.rs:252-256 | A concrete coherent run in which a stale load refuses a request although nothing is in flight. |
| `GateLockFree.LostExchangesAreBounded` | src/rpc/backpressure.rs:251-266 | In every coherent run each future loses at most as many exchanges to another value as the counter changes, and all futures together at most their number times the changes. |
| `GateAnswers.RunAccounts` | src/rpc/backpressure.rs:154-206 | In every run every future has done for each entry behind it exactly what it should, and nothing for those ahead: one verdict on a guarded call, one service for an admitted or unguarded call and for a notification, one answer for a call and for a malformed entry. |
| `GateAnswers.GoneMeansAnswered` | src/rpc/backpressure.rs:154-206 | A future that is gone and was not dropped is through with its request: a single call is answered, a batch without a guarded call is answered by the inner service, and of any other batch all entries up to the end, or up to the answer that did not fit, are done. |
| `GateAnswers.EndsOnlyByFinishing` | src/rpc/backpressure.rs:188-212 | Such a future ended by an answer, by the last poll of a batch with all entries handled, or with the inner service's answer to a whole batch. |
| `GateAnswers.DroppedNeverAnswers` | src/rpc/backpressure.rs:312-322 | A dropped future does nothing more but give back a permit it still owns. |
| `GateProgress.AloneItFinishes` | src/rpc/backpressure.rs:249-277 | From every reachable state each future, running alone and without being dropped, comes to its end: no future waits for another. |
| `Batch.RefusalIsReported` | src/rpc/backpressure.rs:154-166 | A call is answered with the overload error exactly when it is guarded and not admitted, under its own id, with its own method's name and a positive limit; every other call is answered by the inner service. |
| `Batch.BatchResponseBuilder.Append` | src/rpc/backpressure.rs:190-192 | A reply is appended if and only if the buffer with it stays within the byte limit; a refused reply changes nothing. |
| `Batch.HandleEntries` | src/rpc/backpressure.rs:186-206 | The loop stops right after the first reply that does not fit and has then handed on what the entries it reached hand on; it knows whether a notification was among them. |
| `Batch.HandleBatch` | src/rpc/backpressure.rs:168-213 | A batch without a guarded call goes to the inner service untouched. One with a guarded call is answered with all its replies if they fit together, and otherwise with the size error, having handed on exactly the entries before the first reply that did not fit and that one. |
| `Batch.EffectsExactly` | src/rpc/backpressure.rs:195-198 | Every call and every notification among the entries reached is handed on, once and in order, and nothing else is. |
| `Batch.RepliesExactly` | src/rpc/backpressure.rs:186-206 | Every call and every malformed entry is answered, once and in order, and nothing else is: a guarded call that is not admitted with the overload error, a malformed entry with its own error, any other call by the inner service. |
| `Batch.OutcomeExactly` | src/rpc/backpressure.rs:168-213 | A batch is handed over if and only if no call of it names a method with a positive limit; if it is answered, all its replies fit the byte limit; if it is refused, the replies up to the entry it stopped at do not and those before do. |
| `Batch.BufferIsTheText` | src/rpc/backpressure.rs:182-192 | The buffer is as long as the JSON text of the response, so the byte limit is a limit on that text. |
| `Batch.OverflowIsFinal` | src/rpc/backpressure.rs:190-203 | Once the replies to a prefix are over the byte limit, those to every longer prefix are. |
| `Batch.StopsAtTheFirstOverflow` | src/rpc/backpressure.rs:190-203 | Where a batch stops, exactly the shorter prefixes fit the limit: it is the first reply that does not fit, and there is only one such place. |
| `Batch.OutcomeIsUnique` | src/rpc/backpressure.rs:168-213 | The outcome of a batch and the number of entries it reached are determined by the entries, the verdicts of the gate and the byte limit. |
| `Batch.GuardedBatchIsAnswered` | src/rpc/backpressure.rs:208-212 | A batch with a guarded call always has a reply, so the branch for notifications only is not reached. |
| `Batch.OneReplyPerEntry` | src/rpc/backpressure.rs:186-206 | At every point of the batch the reply ids are, in order, those of the calls and malformed entries, one each, and none for a notification (section 6 of JSON-RPC 2.0). |
| `GateBatch.RunStaysOnTrack` | src/rpc/backpressure.rs:186-206 | In every run in which appends fit exactly when the buffer has room, a living batch future has decided each guarded call it is done with exactly once and nothing else, and its replies so far fit the buffer; one that is gone was dropped or has the batch loop's outcome. |
| `GateBatch.FutureEndsAsTheLoop` | src/rpc/backpressure.rs:168-213 | In such a run every batch future with a guarded call that is gone and was not dropped has the outcome the batch loop has when the gate's verdicts are the admissions of the run. |
| `Pool.BestTransactions.Next` | src/engine/builder.rs:253 | Yields the next offered transaction of an unmarked sender, withholding and marking blob transactions once blobs are switched off. |
| `Pool.NextIsTheFirst` | src/engine/builder.rs:253 | The yielded transaction is the first offered one whose sender is not marked and which is not withheld; exactly the senders of the withheld ones before it get marked. |
| `Pool.TipIsWhatTheFeeLeaves` | src/engine/builder.rs:366-370 | The tip is what the sender offers as far as the fee leaves room above the base fee, and there is none exactly when the fee is below it. |
| `Selection.BlockInProgress.Include` | src/engine/builder.rs:357-374 | How an executed transaction changes the five accumulators, in their 64-bit and 256-bit arithmetic, and the block. |
| `Selection.BlockInProgress.Iterate` | src/engine/builder.rs:253-375 | One iteration, including which skips mark the sender and when blobs are switched off. |
| `SelectionSteps.VerdictExactly` | src/engine/builder.rs:254-355 | Each verdict is reached for its own reason and no other, told by exact sums, the flag, the pool's answer and the executor's answer. |
| `SelectionSteps.IterationStops` | src/engine/builder.rs:262-355 | An iteration ends the loop if and only if it sees the flag behind the gas check, the blob store fails on a checked blob transaction, or the executor fails on one handed to it, and then for that reason. |
| `SelectionSteps.IterationMarks` | src/engine/builder.rs:254-362 | After an iteration that goes on the sender is marked if and only if its transaction was neither included nor found by the executor to have too low a nonce; no other mark changes, and blobs are switched off exactly when the block has just got its last. |
| `SelectionSteps.IterationIncludes` | src/engine/builder.rs:336-374 | An included transaction adds itself, its gas, blobs, length, tip times gas and the pool's sidecar, and the chain becomes what its execution left. |
| `SelectionSteps.IterationSkips` | src/engine/builder.rs:254-355 | A transaction that is not included leaves the block and every accumulator as they were. |
| `SelectionSteps.StopsExactlyWhen` | src/engine/builder.rs:253-355 | The loop is cancelled, or fails on the store or the executor with a given code, if and only if it gets to an iteration whose transaction gives that reason. |
| `Selection.BlockInProgress.SelectTransactions` | src/engine/builder.rs:230-375 | The whole loop ends exactly as the recursive specification of the loop does. |
| `SelectionInvariants.TakenExactlyWhen` | src/engine/builder.rs:254-364 | A transaction is taken if and only if it fits gas, blobs and Osaka size by exact sums, the build goes on, the pool has its sidecar in the fork's variant and it executes. |
| `SelectionInvariants.SkipReason` | src/engine/builder.rs:254-305 | A transaction passed over for gas, size or blobs does not fit by exact sums. |
| `SelectionInvariants.TakeFacts` | src/engine/builder.rs:336-374 | A taken transaction was at its sender's nonce and raises it, lowers no other, fits every bound, pays the effective tip, and a blob transaction comes with the pool's sidecar of the fork's variant. |
| `SelectionInvariants.NextKeepsFeed` | src/engine/builder.rs:253 | The yielded transaction carries its sender's next nonce, and no other sender that can still yield loses one. |
| `SelectionInvariants.AdvanceKeepsInv` | src/engine/builder.rs:253-375 | One iteration keeps conservation and bounds, sidecar alignment, nonce order, readiness of every unmarked sender, and the grounds of every skip. |
| `SelectionInvariants.RunKeepsInv` | src/engine/builder.rs:253-375 | The same for the whole loop, from any state. |
| `SelectionInvariants.RunStopsFor` | src/engine/builder.rs:262-264 | The loop ends early only for cancellation, a blob store failure or an executor failure: the expectation that a fee is valid after execution never fails. |
| `SelectionResults.ConservationWithBounds` | src/engine/builder.rs:230-282 | At every iteration reached, however the build ends: gas, blobs, encoded length and fees are the sums over the block; gas is within the block limit, blobs within the cap, the Osaka estimate within its maximum once the block is not empty, and fees below 2^192. |
| `SelectionResults.GasCheckIsExact` | src/engine/builder.rs:254 | The u64 gas check agrees with the true sum at every fill level if and only if the gas limit leaves room for a whole block below 2^64. |
| `SelectionResults.NonceSafety` | src/engine/builder.rs:327-355 | At every iteration reached, however the build ends: the transaction the pool yields next, whatever its execution comes to, has a nonce at most its sender's current one, so had every executed one, and each sender's included nonces strictly increase. |
| `SelectionCancel.NothingIncludedAfterCancel` | src/engine/builder.rs:262-264 | From the iteration on in which the cancel flag is up for good, every cursor reached has the block and the accumulators of that iteration, and the loop can fail only as cancelled. |
| `SelectionCancel.CancelledExactlyWhen` | src/engine/builder.rs:253-264 | Such a build ends cancelled if and only if a transaction yielded from then on passes the gas check, and otherwise finishes with the block it had. |
| `SelectionResults.ContractsCanBeMet` | src/engine/builder.rs:336-355 | The contracts of the executor and the blob store are consistent: for every block there are surroundings that keep them and execute whatever may be executed. |
| `SelectionCompleteness.NextAccounts` | src/engine/builder.rs:253 | Whatever a yield removes from the feed besides the yielded transaction comes from a sender marked for a recorded reason. |
| `SelectionCompleteness.NothingIsPassedOverSilently` | src/engine/builder.rs:253-375 | Each transaction the pool offered was judged itself, or its sender was given up on over a judged transaction, or its sender offered a blob transaction and the block holds all the blobs it may. |
| `SelectionResults.GreedyMaximality` | src/engine/builder.rs:254-305 | At every iteration reached the block is the taken transactions in yield order; each one skipped for gas, blobs or Osaka size still does not fit it, and once blobs are switched off no blob transaction does. At the end of a build this is the finished block. |
| `SelectionInvariants.FinishedIsReached` | src/engine/builder.rs:253-375 | A finished selection is among the states reached, so what holds of those holds of its block. |
| `SelectionResults.SidecarAlignment` | src/engine/builder.rs:307-374 | At every iteration reached the bundle is, in block order, exactly the pool sidecar of each included blob transaction, of the fork's one variant; its versioned hashes are the block's, at most the cap, and there are no more sidecars than blobs. |
| `Builder.DefaultLoadPayload` | src/engine/builder.rs:173-407 | One build: attribute check, opening the block, selection, the better-payload decision, sealing, the Osaka block size check and the payload. |
| `Builder.BetterIsWellBuilt` | src/engine/builder.rs:377-406 | A better payload is later than its parent, has prev_randao 0x01, exactly the requests of its sealing from Prague on and none before, a sealed size within the maximum from Osaka on, an aligned bundle within the cap, the fees of its transactions, and more fees than the payload it replaces. |
| `Builder.BetterIsTheFinishedSelection` | src/engine/builder.rs:225-406 | A better payload is the finished selection on the opened block's own limits, base fee, cap, fork and withdrawals, sealed. |
| `Builder.StoppedBuildSaysWhy` | src/engine/builder.rs:262-355 | A build is cancelled, or fails with a store's or the executor's code, if and only if its loop gets to an iteration that gives that reason. |
| `Builder.FinishedBuildEnds` | src/engine/builder.rs:377-406 | A build whose loop finishes is aborted if and only if what is held earns no less, fails exactly where sealing fails or the sealed block is too large, and is better otherwise. |
| `Builder.RefusedBuildSaysWhy` | src/engine/payload.rs:147-163 | A build that does not begin names the check that stopped it. |
| `Builder.EmptyPayloadIsNeverMissing` | src/engine/builder.rs:153-168 | Building with nothing held and a fresh cancel token gives that build's payload, well built, or that build's error, which is never the missing-payload one. |
| `Builder.OutcomeComparesFees` | src/engine/builder.rs:377-380 | A better outcome earns strictly more than what is held; an aborted one earns no more. |
| `Builder.HeldPayloadIsTheBest` | src/engine/builder.rs:377-406 | After any sequence of builds the held payload earns at least as much as every block any build came up with, aborted ones included, and each replacement strictly raised the fees. |
| `Builder.HeldPayloadWasBuilt` | src/engine/builder.rs:377-406 | The held payload is the payload of one of the builds. |
| `BlobFee.SumLoop` | src/evm/mod.rs:78 | The loop terminates for every input, sums all its accumulators, and reports whether every intermediate value fits u128. |
| `BlobFee.ComputeFakeExponential` | src/evm/mod.rs:78 | The fee is the Taylor sum of the scaled minimum fee, divided at the end, and the report covers the scaling too. |
| `BlobFee.FakeExponentialMonotone` | src/evm/mod.rs:78 | The price does not fall when the excess grows. |
| `BlobFee.FakeExponentialAtLeastFactor` | src/evm/mod.rs:79-83 | The price is at least the minimum fee, and equals it at excess zero. |
| `BlobFee.SmallSumFits` | src/evm/mod.rs:78 | A bound on the Taylor sum bounds every intermediate product, sum and divisor of the loop. |
| `BlobFee.LoopExactly` | src/evm/mod.rs:78 | The loop stays within u128 if and only if each of its iterations does, and computes the sum of its accumulators up to the first that is zero. |
| `BlobFeeCeiling.FeeAtClamp` | src/chainspec/mod.rs:26-30 | The price at the clamp of 1024 blobs is exactly 436556860642. |
| `BlobFeeCeiling.FeeWithinClamp` | src/evm/mod.rs:73-78 | At every excess up to the clamp no intermediate value exceeds u128 and the price lies between 1 and the price at the clamp. |
| `EvmEnv.EvmEnv.EnforceLoadBlobEnv` | src/evm/mod.rs:67-85 | The environment after the overrides whenever the u128 price loop stays within u128, which is reported exactly and is always so for a minimum fee of 1. |
| `EvmEnv.EnvForHeader` | src/evm/mod.rs:107-111 | The upstream error, or the upstream environment enforced at the header's timestamp. |
| `EvmEnv.NextEnv` | src/evm/mod.rs:113-121 | The same for a block to be built, at the timestamp of its attributes. |
| `EvmEnv.EnvForPayload` | src/evm/mod.rs:144-151 | The same for a payload, at its timestamp. |
| `EvmEnv.PriceAlwaysFits` | src/evm/mod.rs:67-85 | On a chain made from a genesis the price loop stays within u128 for every upstream environment, so every entry point answers with the enforced one. |
| `EvmEnv.PriceFitsU64` | src/engine/builder.rs:234-237 | On such a chain the builder's cast of the price to u64 cuts nothing off. |
| `EvmEnv.MinBlobFeeIsOne` | src/chainspec/mod.rs:53-69 | Every chain made from a genesis has a minimum blob fee of 1 at every timestamp. |
| `EvmEnv.ParamsAgreeUntilOsaka` | src/evm/mod.rs:54-65 | On a chain made from a genesis the environment's blob parameters are the chain's own if and only if Osaka is not active. |
| `EvmEnv.PriceIsTheMinimum` | src/evm/mod.rs:73-78 | For every upstream excess the enforced price is the minimum of the unclamped price and the price at the clamp. |
| `EvmEnv.PriceExactly` | src/evm/mod.rs:73-78 | The enforced excess is the upstream one cut at 1024 blobs of gas, and the price is the EIP-4844 price of that excess at the chain's minimum fee. |
| `EvmEnv.PriceOnGenesisChains` | src/evm/mod.rs:73-78 | On a chain made from a genesis every upstream excess at or above the clamp has exactly the highest price, and every smaller one its own EIP-4844 price. |
| `EvmEnv.OverridesExactly` | src/evm/mod.rs:67-85 | Beyond the price the overrides set the limit of 32 blobs for a transaction and the update fraction, add blob fields from Cancun on where there were none, and touch nothing else. |
| `EvmEnv.ParamsAreLoads` | src/evm/mod.rs:54-65 | The environment's parameters are Load's on every chain; only the minimum fee is the chain's, or the Cancun default where the chain has none. |
| `EvmEnv.PriceFitsExactly` | src/evm/mod.rs:73-83 | The price loop stays within u128 if and only if no price is computed or its scaled start and all its iterations do. |
| `EvmEnv.PriceHasOneBound` | src/evm/mod.rs:67-85 | On a chain made from a genesis every environment has blob fields, an excess within the clamp and a price between 1 and one constant. |
| `EvmEnv.PriceMonotone` | src/evm/mod.rs:73-78 | A larger upstream excess never lowers the enforced price. |
| `EvmEnv.EnforcedIsIdempotent` | src/evm/mod.rs:67-85 | Enforcing twice is enforcing once, also when the first time added the blob fields. |
| `EvmEnv.CapWithinEnv` | src/engine/builder.rs:409-415 | The builder's cap is never above the maximum the environment is configured for, on any chain and at any timestamp. |
| `ChainSpec.FillForks` | src/chainspec/mod.rs:117-143 | The fork loop fills gaps with block 0, overwrites nothing and stops at the first fork that is not at block 0. |
| `ChainSpec.GenesisConfig.ValidateMerge` | src/chainspec/mod.rs:83-115 | Cancun, total difficulty and merge block are accepted exactly when Cancun is 0 and the others are absent or zero. |
| `ChainSpec.GenesisConfig.ValidateTimes` | src/chainspec/mod.rs:145-160 | Shanghai and Prague are accepted exactly when absent or zero. |
| `ChainSpec.GenesisConfig.Validate` | src/chainspec/mod.rs:82-164 | Accepts exactly the genesis with explicit Cancun 0 and every other checked field absent or zero, leaves it canonical, overwrites no given value, and blames the first offending field. |
| `ChainSpec.CanonicalIsTheOnlyCompletion` | src/chainspec/mod.rs:82-164 | The canonical configuration is acceptable and a fixed point, and the only acceptable way to fill every gap. |
| `ChainSpec.FromGenesis` | src/chainspec/mod.rs:43-78 | The chain made from an accepted genesis depends on its Osaka time alone; a refused one is refused for its first offending field. |
| `ChainSpec.GenesisChainExactly` | src/chainspec/mod.rs:43-78 | On such a chain every fork up to Prague is active from the start and Osaka from its own time on, with Load's blob parameters until then and the upstream Osaka ones after. |
| `ChainSpec.CapExactly` | src/engine/builder.rs:409-415 | On any chain the cap is at most what the chain says, and 1024 unless the chain says less. |
| `ChainSpec.CapOfValidatedChain` | src/engine/builder.rs:409-415 | On such a chain the builder's cap is 1024 exactly until Osaka and 9 from Osaka on. |
| `Payload.LocalAttributesAreBuildable` | src/engine/payload.rs:184-205 | The node's own attributes always convert, and pass the builder's check if and only if the parent is not at the last u64 timestamp; they carry withdrawals exactly from Shanghai and a beacon root exactly from Cancun on. |
| `Payload.AttributesExactly` | src/engine/payload.rs:102-163 | Attributes convert, whole and unchanged, if and only if their prev_randao is 0x01, and then begin a build if and only if they are later than the parent. |
| `Payload.ConvertsExactlyWhen` | src/engine/payload.rs:218-287 | A payload converts if and only if its sidecars are of the first variant and at most 1024; the envelope has its block, fees and sidecars, and the V4 conversion refuses the same payloads and otherwise passes on what upstream says. |
| `Payload.GuardCapsBlobsOnlySingly` | src/engine/payload.rs:218-226 | For payloads with at most a given number of blobs per sidecar, the guard caps the blobs at 1024 if and only if that number is at most one. |
| `Validator.RpcGuardAgreesWithValidator` | src/engine/rpc.rs:185-245 | Every refusal of the RPC guards is one the validator makes too; for version 3 they agree exactly, and for version 4 the validator adds only the Prague list. |
| `Validator.RefusalNamesTheFault` | src/engine/validator.rs:68-105 | The validator refuses if and only if something is wrong with what was sent, and a refusal of the validator or the RPC guards names something that is. |
| `Validator.DataIsWhatWasSent` | src/engine/rpc.rs:185-245 | The validator looks at the block, hashes, beacon root and requests the call carried. |
| `Validator.ForkGateSeesOnlyLists` | src/engine/validator.rs:68-105 | With prev_randao and hashes in order, Prague fields pass the guard before Prague if and only if they hold a hash. |
| `Validator.ForkGateIsIdleOnGenesisChains` | src/engine/validator.rs:94-102 | On every chain made from a genesis the fork gate refuses nothing, and the guard accepts exactly the constant prev_randao with at most 1024 hashes. |
| `Validator.HashPassesTheForkGate` | src/engine/validator.rs:94-102 | A concrete payload with Prague fields that passes before Prague, on a chain that no genesis yields. |
| `Engine.StepKeepsSafe` | src/engine/validator.rs:115-175 | Every step keeps: converted payloads, started builds and stored payloads satisfy the Load invariants. |
| `Engine.WholeRunSafety` | src/engine/rpc.rs:152-294 | In every run through RPC, the direct handle, local attributes and builds, every converted payload has prev_randao 0x01, at most 1024 hashes and a request list only from Prague on; every started build has prev_randao 0x01; every built block is later than its parent and within the caps. |
| `Engine.PayloadIsConvertedExactlyWhenSafe` | src/engine/rpc.rs:185-245 | A payload sent over RPC or handed over directly is converted if and only if it satisfies the Load invariants and upstream agrees; a refused payload changes nothing. |
| `Engine.AttributeGuardsAgree` | src/engine/rpc.rs:247-294 | The attribute guards of every forkchoice version refuse exactly what the conversion of the attributes refuses. |
| `Engine.BuildIsStartedExactlyWhen` | src/engine/rpc.rs:247-294 | A request for a build is accepted if and only if its prev_randao is 0x01 and upstream agrees, and then starts one build with the given head and attributes; a refused one changes nothing; the node's own is always accepted. |
| `Engine.BuildIsStoredExactlyWhenBetter` | src/engine/builder.rs:377-406 | A build stores its payload under its own job if and only if it is better than the one it was compared with, and then with more fees; otherwise nothing changes. |
| `Engine.WellBuiltRoundTrip` | src/engine/payload.rs:218-287 | A payload built before Osaka converts to V3 with its own block and fees and the block's own versioned hashes, at most 1024, passes the V4 guard, and coming back with its hashes and requests passes the RPC and validator guards, nothing lost. |
| `Engine.StoredPayloadsComeBack` | src/engine/validator.rs:68-121 | In every reachable state each stored payload, sent back to the node, is converted unless upstream objects. |
| `Engine.StoredPayloadsWithinCap` | src/engine/builder.rs:285-305 | On a chain made from a genesis no stored payload of any run has more than 1024 blobs before Osaka or more than 9 from Osaka on. |

## Left out

- EVM execution, the state database, KZG, block assembly and RLP encoding are upstream; the contracts
  above stand for them, and encoded lengths are numbers.
- The upstream parts of payload and attribute validation and of the V4 and V5 conversions are arbitrary
  verdicts; the V5 conversion has the same guard as V4 and no row of its own.
- Conversion of blob payloads after Osaka: the guard rejects their sidecars, so the round trip is
  claimed before Osaka only.
- try_acquire and release are steps of a transition system instead of methods on a shared field,
  because other futures act between their atomic operations. Weak memory is modelled for the counter
  alone: loads may be stale, and read-modify-write operations see the latest value.
- The metrics: the inflight gauge is published after the atomic step and may lag behind the counter,
  and the accepted and rejected counters only count events that are modelled.
- Panics inside the inner service are not modelled.
- Engine.PayloadIsConvertedExactlyWhenSafe: says nothing of the fork choice, which the modelled node
  does not have; what a refused attribute call applies of it is upstream.
- The environment after a price that leaves u128, which only a minimum blob fee above 1 makes possible.
- usize is taken to be 64 bits wide.
- The byte widths of hashes: a 32-byte value is the number it encodes.
- getBlobs handlers, client version and capability lists are short wrappers over the upstream pool and
  API and would add only easy members.
- Pool sizing, node and consensus wiring, environment parsing, the command line, persistence and
  networking are plumbing.
