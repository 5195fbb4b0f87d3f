// What the selection guarantees at every iteration it reaches, however it ends, for every feed,
// executor, blob store and cancellation pattern that keeps its contract.
module SelectionResults {
  import opened Wrappers
  import opened Pool
  import opened Selection
  import opened SelectionInvariants

  // The accumulators are exact sums over the block, within their bounds; the U256 total of the
  // fees stays below 2^192 and so never wraps.
  lemma ConservationWithBounds(
    ctx: BlockCtx, env: Surroundings, chain: ChainState, feed: seq<Tx>, n: nat, c: Cursor)
    requires Reached(ctx, env, chain, feed, n, c)
    ensures
      var block := c.acc.included;
      && c.acc.gas == SumGas(block) <= ctx.gasLimit
      && c.acc.blobs == SumBlobs(block) <= ctx.blobCap
      && c.acc.rlp == SumRlp(block)
      && c.acc.fees == SumFees(ctx.baseFee, block) < 0x1_0000_0000_0000_0000_0000_0000_0000_0000_0000_0000_0000_0000
      && (ctx.isOsaka && block != [] ==>
            SumRlp(block) + ctx.withdrawalsLength + HEADER_ALLOWANCE <= MAX_RLP_BLOCK_SIZE)
  {
    ReachedInv(ctx, env, chain, feed, n, c);
    assert U128_MAX * c.acc.gas <= U128_MAX * U64_MAX;
  }

  // The u64 gas check is the check of the true sum at every fill level of the block exactly for
  // gas limits that leave room for a whole block below 2^64.
  lemma GasCheckIsExact(blockLimit: nat, txLimit: nat)
    requires blockLimit <= U64_MAX && txLimit <= U64_MAX
    ensures (forall used | 0 <= used <= blockLimit ::
               WrappingAdd(used, txLimit, U64_MAX) > blockLimit <==> used + txLimit > blockLimit)
            <==> txLimit + blockLimit <= U64_MAX
  {
    if txLimit + blockLimit > U64_MAX {
      assert blockLimit + txLimit - (U64_MAX + 1) <= blockLimit;
      assert WrappingAdd(blockLimit, txLimit, U64_MAX) == blockLimit + txLimit - (U64_MAX + 1);
    }
  }

  // No transaction reaches the executor ahead of its sender's nonce: whatever the pool yields next
  // is not, so neither is one whose execution ends the build. And each sender's included nonces
  // strictly increase.
  lemma NonceSafety(
    ctx: BlockCtx, env: Surroundings, chain: ChainState, feed: seq<Tx>, n: nat, c: Cursor)
    requires Reached(ctx, env, chain, feed, n, c)
    ensures
      var next := c.it.Next().0;
      next.Some? ==> next.value.nonce <= c.acc.chain.Nonce(next.value.sender)
    ensures forall k | 0 <= k < |c.acc.log| && WasExecuted(c.acc.log[k].verdict) ::
              c.acc.log[k].tx.nonce <= c.acc.log[k].stateNonce
    ensures
      var block := c.acc.included;
      forall j, k | 0 <= j < k < |block| && block[j].tx.sender == block[k].tx.sender ::
        block[j].tx.nonce < block[k].tx.nonce
  {
    ReachedInv(ctx, env, chain, feed, n, c);
    YieldKeepsHeads(ctx, c.it, c.acc.chain);
  }

  // The block is exactly the transactions taken, in the order they were yielded; each one passed
  // over for gas, size or blob space would still not fit the finished block; and once blobs were
  // switched off no blob transaction would.
  lemma GreedyMaximality(
    ctx: BlockCtx, env: Surroundings, chain: ChainState, feed: seq<Tx>, n: nat, c: Cursor)
    requires Reached(ctx, env, chain, feed, n, c)
    ensures BlockTxs(c.acc.included) == TakenTxs(c.acc.log)
    ensures forall k | 0 <= k < |c.acc.log| :: StillDoesNotFit(ctx, c.acc, c.acc.log[k])
    ensures forall tx: Tx | c.it.skipsBlobs && tx.BlobCount() > 0 :: c.acc.blobs + tx.BlobCount() > ctx.blobCap
  {
    ReachedInv(ctx, env, chain, feed, n, c);
  }

  // --- The contracts can be met ---

  // Executes whatever the contract allows to execute, and uses the whole gas limit.
  function ReferenceExec(baseFee: nat, st: ChainState, tx: Tx): ExecResult {
    if tx.nonce == st.Nonce(tx.sender) && tx.maxFeePerGas >= baseFee && (tx.IsBlob() ==> tx.BlobCount() > 0)
    then Executed(tx.gasLimit, st.(nonces := st.nonces[tx.sender := tx.nonce + 1]))
    else InvalidTx(tx.nonce < st.Nonce(tx.sender))
  }

  function ReferenceSurroundings(ctx: BlockCtx): Surroundings {
    Surroundings(
      (st: ChainState, tx: Tx) => ReferenceExec(ctx.baseFee, st, tx),
      (i: nat, tx: Tx) => if tx.IsBlob() then Found(Sidecar(ForkVariant(ctx), tx.blobHashes.value)) else Missing,
      (i: nat) => false)
  }

  // The contracts do not contradict each other: for every block there are surroundings that keep
  // them and execute every transaction that is at its nonce and pays the base fee.
  lemma ContractsCanBeMet(ctx: BlockCtx)
    requires ctx.gasLimit <= U64_MAX
    ensures Contracts(ctx, ReferenceSurroundings(ctx))
  {
    var env := ReferenceSurroundings(ctx);
    forall st, tx ensures env.exec(st, tx) == ReferenceExec(ctx.baseFee, st, tx) {
    }
    assert ExecutorContract(ctx, env);
    assert BlobStoreContract(env);
  }

  // --- Sidecars ---

  function BundleHashes(sidecars: seq<Sidecar>): seq<nat> {
    if sidecars == [] then []
    else BundleHashes(sidecars[..|sidecars| - 1]) + sidecars[|sidecars| - 1].hashes
  }

  function HashesOf(tx: Tx): seq<nat> {
    if tx.blobHashes.Some? then tx.blobHashes.value else []
  }

  function BlockHashes(block: seq<Included>): seq<nat> {
    if block == [] then [] else BlockHashes(block[..|block| - 1]) + HashesOf(block[|block| - 1].tx)
  }

  ghost predicate EveryBlobFound(env: Surroundings, block: seq<Included>) {
    forall k | 0 <= k < |block| && block[k].tx.IsBlob() ::
      block[k].tx.BlobCount() > 0 && env.getBlob(block[k].slot, block[k].tx).Found?
  }

  lemma {:induction false} PoolSidecarsMatch(env: Surroundings, block: seq<Included>)
    requires BlobStoreContract(env) && EveryBlobFound(env, block)
    ensures BundleHashes(PoolSidecars(env, block)) == BlockHashes(block)
    ensures |PoolSidecars(env, block)| <= |BlockHashes(block)| == SumBlobs(block)
  {
    if block != [] {
      var last := block[|block| - 1];
      var before := block[..|block| - 1];
      PoolSidecarsMatch(env, before);
      if last.tx.IsBlob() {
        var sidecar := env.getBlob(last.slot, last.tx).sidecar;
        assert PoolSidecars(env, block) == PoolSidecars(env, before) + [sidecar];
        assert (PoolSidecars(env, before) + [sidecar])[..|PoolSidecars(env, before)|] == PoolSidecars(env, before);
      } else {
        assert PoolSidecars(env, block) == PoolSidecars(env, before);
      }
    }
  }

  // The bundle is, in block order, exactly the pool sidecar of each included blob transaction; all
  // are of the fork's one variant; its versioned hashes are the block's; and there are no more
  // sidecars than blobs, and no more blobs than the cap.
  lemma SidecarAlignment(
    ctx: BlockCtx, env: Surroundings, chain: ChainState, feed: seq<Tx>, n: nat, c: Cursor)
    requires Reached(ctx, env, chain, feed, n, c)
    ensures
      var sidecars := c.acc.sidecars.All();
      && sidecars == PoolSidecars(env, c.acc.included)
      && AllOfVariant(sidecars, ForkVariant(ctx))
      && (c.acc.sidecars.Sidecars4844? ==> !ctx.isOsaka)
      && (c.acc.sidecars.Sidecars7594? ==> ctx.isOsaka)
      && BundleHashes(sidecars) == BlockHashes(c.acc.included)
      && |sidecars| <= |BundleHashes(sidecars)| == SumBlobs(c.acc.included) <= ctx.blobCap
  {
    ReachedInv(ctx, env, chain, feed, n, c);
    PoolSidecarsMatch(env, c.acc.included);
  }
}
