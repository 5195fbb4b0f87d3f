// What the selection loop keeps in every iteration.
module SelectionInvariants {
  import opened Wrappers
  import opened Pool
  import opened Selection

  // --- Sums over the block ---

  function SumGas(block: seq<Included>): nat {
    if block == [] then 0 else SumGas(block[..|block| - 1]) + block[|block| - 1].gasUsed
  }

  function SumBlobs(block: seq<Included>): nat {
    if block == [] then 0 else SumBlobs(block[..|block| - 1]) + block[|block| - 1].tx.BlobCount()
  }

  function SumRlp(block: seq<Included>): nat {
    if block == [] then 0 else SumRlp(block[..|block| - 1]) + block[|block| - 1].tx.rlpLength
  }

  function TipOf(tx: Tx, baseFee: nat): nat {
    if tx.EffectiveTip(baseFee).Some? then tx.EffectiveTip(baseFee).value else 0
  }

  function SumFees(baseFee: nat, block: seq<Included>): nat {
    if block == [] then 0
    else
      var last := block[|block| - 1];
      SumFees(baseFee, block[..|block| - 1]) + TipOf(last.tx, baseFee) * last.gasUsed
  }

  // The sidecars the pool held for the blob transactions of the block, in block order.
  function PoolSidecars(env: Surroundings, block: seq<Included>): seq<Sidecar> {
    if block == [] then []
    else
      var last := block[|block| - 1];
      var lookup := env.getBlob(last.slot, last.tx);
      PoolSidecars(env, block[..|block| - 1]) +
      (if last.tx.IsBlob() && lookup.Found? then [lookup.sidecar] else [])
  }

  function BlockTxs(block: seq<Included>): seq<Tx> {
    if block == [] then [] else BlockTxs(block[..|block| - 1]) + [block[|block| - 1].tx]
  }

  function TakenTxs(log: seq<Event>): seq<Tx> {
    if log == [] then []
    else
      var last := log[|log| - 1];
      TakenTxs(log[..|log| - 1]) + (if last.verdict.Take? then [last.tx] else [])
  }

  // --- The pool's promise about what it feeds a build ---

  predicate Fits(ctx: BlockCtx, tx: Tx) {
    && WellSized(tx)
    && tx.gasLimit + ctx.gasLimit <= U64_MAX
    && tx.BlobCount() + ctx.blobCap <= U64_MAX
  }

  ghost predicate FeedFits(ctx: BlockCtx, feed: seq<Tx>) {
    forall tx | tx in feed :: Fits(ctx, tx)
  }

  function TotalRlp(feed: seq<Tx>): nat {
    if feed == [] then 0 else feed[0].rlpLength + TotalRlp(feed[1..])
  }

  // The length counters can take this many more bytes of transactions.
  predicate HasRoom(ctx: BlockCtx, acc: Acc, lengths: nat) {
    acc.rlp + lengths + ctx.withdrawalsLength + HEADER_ALLOWANCE <= U64_MAX
  }

  // The estimate of the block size in exact numbers.
  function TrueSize(ctx: BlockCtx, acc: Acc, tx: Tx): nat {
    acc.rlp + tx.rlpLength + ctx.withdrawalsLength + HEADER_ALLOWANCE
  }

  // No sender outside `invalid` has its next transaction ahead of its nonce.
  ghost predicate HeadsReady(it: Iter, chain: ChainState) {
    forall s | s !in it.invalid && NextNonce(it.feed, s).Some? :: NextNonce(it.feed, s).value <= chain.Nonce(s)
  }

  // --- The invariants ---

  ghost predicate Conserved(ctx: BlockCtx, acc: Acc) {
    && acc.gas == SumGas(acc.included) <= ctx.gasLimit
    && acc.blobs == SumBlobs(acc.included) <= ctx.blobCap
    && acc.rlp == SumRlp(acc.included)
    && acc.fees == SumFees(ctx.baseFee, acc.included) <= U128_MAX * acc.gas
    && (ctx.isOsaka && acc.included != [] ==>
          acc.rlp + ctx.withdrawalsLength + HEADER_ALLOWANCE <= MAX_RLP_BLOCK_SIZE)
  }

  function ForkVariant(ctx: BlockCtx): SidecarVariant {
    if ctx.isOsaka then Eip7594 else Eip4844
  }

  ghost predicate AllOfVariant(sidecars: seq<Sidecar>, variant: SidecarVariant) {
    forall k | 0 <= k < |sidecars| :: sidecars[k].variant == variant
  }

  // No sidecar is missing, lost or foreign, and all are of the fork's variant.
  ghost predicate SidecarsMatch(ctx: BlockCtx, env: Surroundings, acc: Acc) {
    && acc.sidecars.All() == PoolSidecars(env, acc.included)
    && AllOfVariant(acc.sidecars.All(), ForkVariant(ctx))
    && (acc.sidecars.Sidecars4844? ==> !ctx.isOsaka && acc.sidecars.list != [])
    && (acc.sidecars.Sidecars7594? ==> ctx.isOsaka && acc.sidecars.list != [])
  }

  // A blob transaction is included with its sidecar, and nothing in an iteration that saw the build
  // cancelled.
  predicate ProperlyIncluded(env: Surroundings, x: Included) {
    && (x.tx.IsBlob() ==> x.tx.BlobCount() > 0 && env.getBlob(x.slot, x.tx).Found?)
    && !env.cancelled(x.slot)
  }

  ghost predicate Aligned(ctx: BlockCtx, env: Surroundings, acc: Acc) {
    && SidecarsMatch(ctx, env, acc)
    && (forall k | 0 <= k < |acc.included| :: ProperlyIncluded(env, acc.included[k]))
  }

  // A verdict that is reached only by handing the transaction to the executor.
  predicate WasExecuted(v: Verdict) {
    v.Take? || v.SkipNonceTooLow? || v.SkipInvalid?
  }

  ghost predicate NoncesInOrder(acc: Acc) {
    && (forall k | 0 <= k < |acc.included| ::
          acc.included[k].tx.nonce < acc.chain.Nonce(acc.included[k].tx.sender))
    && (forall j, k | 0 <= j < k < |acc.included| && acc.included[j].tx.sender == acc.included[k].tx.sender ::
          acc.included[j].tx.nonce < acc.included[k].tx.nonce)
    && (forall k | 0 <= k < |acc.log| && WasExecuted(acc.log[k].verdict) ::
          acc.log[k].tx.nonce <= acc.log[k].stateNonce)
  }

  // The reason of a skip still holds against the block as it is now.
  predicate StillDoesNotFit(ctx: BlockCtx, acc: Acc, e: Event) {
    && (e.verdict.SkipGas? ==> acc.gas + e.tx.gasLimit > ctx.gasLimit)
    && (e.verdict.SkipSize? ==> ctx.isOsaka && TrueSize(ctx, acc, e.tx) > MAX_RLP_BLOCK_SIZE)
    && (e.verdict.SkipBlobCap? ==> acc.blobs + e.tx.BlobCount() > ctx.blobCap)
  }

  ghost predicate Greedy(ctx: BlockCtx, acc: Acc, it: Iter) {
    && (forall k | 0 <= k < |acc.log| :: StillDoesNotFit(ctx, acc, acc.log[k]))
    && (it.skipsBlobs ==> acc.blobs == ctx.blobCap)
    && BlockTxs(acc.included) == TakenTxs(acc.log)
  }

  ghost predicate Inv(ctx: BlockCtx, env: Surroundings, c: Cursor) {
    && FeedFits(ctx, c.it.feed)
    && Consecutive(c.it.feed)
    && HeadsReady(c.it, c.acc.chain)
    && HasRoom(ctx, c.acc, TotalRlp(c.it.feed))
    && Conserved(ctx, c.acc)
    && Aligned(ctx, env, c.acc)
    && NoncesInOrder(c.acc)
    && Greedy(ctx, c.acc, c.it)
  }

  ghost predicate Contracts(ctx: BlockCtx, env: Surroundings) {
    ctx.gasLimit <= U64_MAX && ExecutorContract(ctx, env) && BlobStoreContract(env)
  }

  // --- The iterator ---

  // What a yield does to the feed: the yielded transaction was its sender's next, and no other
  // sender that can still yield lost anything.
  lemma {:induction false} NextKeepsFeed(ctx: BlockCtx, it: Iter)
    requires FeedFits(ctx, it.feed) && Consecutive(it.feed)
    ensures
      var (tx, it') := it.Next();
      && FeedFits(ctx, it'.feed) && Consecutive(it'.feed)
      && (tx.Some? ==>
            && Fits(ctx, tx.value)
            && tx.value.sender !in it'.invalid
            && NextNonce(it.feed, tx.value.sender) == Some(tx.value.nonce)
            && (NextNonce(it'.feed, tx.value.sender) == None ||
                NextNonce(it'.feed, tx.value.sender) == Some(tx.value.nonce + 1)))
      && (forall s | s !in it'.invalid && (tx.Some? ==> s != tx.value.sender) ::
            NextNonce(it'.feed, s) == NextNonce(it.feed, s))
    decreases |it.feed|
  {
    if it.feed != [] {
      var tx, rest := it.feed[0], it.(feed := it.feed[1..]);
      assert tx in it.feed;
      if tx.sender in it.invalid {
        NextKeepsFeed(ctx, rest);
        NextConsumes(rest);
      } else if it.skipsBlobs && tx.IsBlob() {
        NextKeepsFeed(ctx, rest.MarkInvalid(tx));
        NextConsumes(rest.MarkInvalid(tx));
      }
    }
  }

  // The feed never gets longer, and shorter at least by what it yields.
  lemma {:induction false} NextKeepsRoom(ctx: BlockCtx, acc: Acc, it: Iter)
    requires HasRoom(ctx, acc, TotalRlp(it.feed))
    ensures
      var (tx, it') := it.Next();
      && HasRoom(ctx, acc, TotalRlp(it'.feed))
      && (tx.Some? ==> HasRoom(ctx, acc, tx.value.rlpLength + TotalRlp(it'.feed)))
    decreases |it.feed|
  {
    if it.feed != [] {
      var tx, rest := it.feed[0], it.(feed := it.feed[1..]);
      if tx.sender in it.invalid {
        NextKeepsRoom(ctx, acc, rest);
      } else if it.skipsBlobs && tx.IsBlob() {
        NextKeepsRoom(ctx, acc, rest.MarkInvalid(tx));
      }
    }
  }

  lemma YieldKeepsHeads(ctx: BlockCtx, it: Iter, chain: ChainState)
    requires FeedFits(ctx, it.feed) && Consecutive(it.feed) && HeadsReady(it, chain)
    ensures
      var (tx, it') := it.Next();
      && (tx.None? ==> HeadsReady(it', chain))
      && (tx.Some? ==> tx.value.nonce <= chain.Nonce(tx.value.sender) && HeadsReady(it'.MarkInvalid(tx.value), chain))
  {
    NextKeepsFeed(ctx, it);
    NextConsumes(it);
  }

  // After the yielded transaction's own nonce has been passed, its sender is ready again.
  lemma HeadsAfterYield(ctx: BlockCtx, it: Iter, chain: ChainState, chain': ChainState)
    requires FeedFits(ctx, it.feed) && Consecutive(it.feed) && HeadsReady(it, chain) && it.Next().0.Some?
    requires forall s :: chain.Nonce(s) <= chain'.Nonce(s)
    requires it.Next().0.value.nonce < chain'.Nonce(it.Next().0.value.sender)
    ensures HeadsReady(it.Next().1, chain')
  {
    NextKeepsFeed(ctx, it);
    NextConsumes(it);
  }

  // --- One more transaction ---

  lemma SumsOfOneMore(baseFee: nat, block: seq<Included>, x: Included)
    ensures SumGas(block + [x]) == SumGas(block) + x.gasUsed
    ensures SumBlobs(block + [x]) == SumBlobs(block) + x.tx.BlobCount()
    ensures SumRlp(block + [x]) == SumRlp(block) + x.tx.rlpLength
    ensures SumFees(baseFee, block + [x]) == SumFees(baseFee, block) + TipOf(x.tx, baseFee) * x.gasUsed
    ensures BlockTxs(block + [x]) == BlockTxs(block) + [x.tx]
  {
    assert (block + [x])[..|block|] == block;
  }

  lemma TakeKeepsConserved(ctx: BlockCtx, env: Surroundings, i: nat, acc: Acc, tx: Tx)
    requires Contracts(ctx, env) && Conserved(ctx, acc) && Fits(ctx, tx)
    requires HasRoom(ctx, acc, tx.rlpLength)
    requires Judge(ctx, env, i, acc, tx).Take?
    ensures Conserved(ctx, Taken(acc, i, tx, Judge(ctx, env, i, acc, tx)))
  {
    var v := Judge(ctx, env, i, acc, tx);
    TakeFacts(ctx, env, i, acc, tx);
    SumsOfOneMore(ctx.baseFee, acc.included, Included(tx, v.gasUsed, i));
    FeesStayBelow(acc.fees, acc.gas, v.tip, v.gasUsed);
  }

  // What is known of a taken transaction.
  lemma TakeFacts(ctx: BlockCtx, env: Surroundings, i: nat, acc: Acc, tx: Tx)
    requires Contracts(ctx, env) && Fits(ctx, tx) && HasRoom(ctx, acc, tx.rlpLength)
    requires acc.gas <= ctx.gasLimit && acc.blobs <= ctx.blobCap
    requires Judge(ctx, env, i, acc, tx).Take?
    ensures
      var v := Judge(ctx, env, i, acc, tx);
      && acc.gas + tx.gasLimit <= ctx.gasLimit && v.gasUsed <= tx.gasLimit
      && (tx.IsBlob() ==> acc.blobs + tx.BlobCount() <= ctx.blobCap)
    ensures
      var v := Judge(ctx, env, i, acc, tx);
      && v.tip == TipOf(tx, ctx.baseFee) <= U128_MAX && v.gasUsed <= U64_MAX
      && (ctx.isOsaka ==> TrueSize(ctx, acc, tx) <= MAX_RLP_BLOCK_SIZE)
      && tx.nonce == acc.chain.Nonce(tx.sender) < v.post.Nonce(tx.sender)
      && (forall s :: acc.chain.Nonce(s) <= v.post.Nonce(s))
      && v.sidecar.Some? == tx.IsBlob() && !env.cancelled(i)
      && (tx.IsBlob() ==>
            && tx.BlobCount() > 0 && env.getBlob(i, tx) == Found(v.sidecar.value)
            && v.sidecar.value.variant == ForkVariant(ctx))
  {
    assert env.exec(acc.chain, tx).Executed?;
  }

  // A transaction is taken exactly when it fits the block by true sums, the build goes on, the pool
  // has its sidecar in the fork's variant and it executes: no counter wraps in the checks, and the
  // fee of an executed transaction is never found invalid.
  lemma TakenExactlyWhen(ctx: BlockCtx, env: Surroundings, i: nat, acc: Acc, tx: Tx)
    requires Contracts(ctx, env) && Fits(ctx, tx) && HasRoom(ctx, acc, tx.rlpLength)
    requires acc.gas <= ctx.gasLimit && acc.blobs <= ctx.blobCap
    ensures Judge(ctx, env, i, acc, tx).Take? <==>
            && acc.gas + tx.gasLimit <= ctx.gasLimit && !env.cancelled(i)
            && (ctx.isOsaka ==> TrueSize(ctx, acc, tx) <= MAX_RLP_BLOCK_SIZE)
            && (tx.IsBlob() ==>
                  && acc.blobs + tx.BlobCount() <= ctx.blobCap && env.getBlob(i, tx).Found?
                  && env.getBlob(i, tx).sidecar.variant == ForkVariant(ctx))
            && env.exec(acc.chain, tx).Executed?
  {
    assert env.exec(acc.chain, tx).Executed? ==> tx.EffectiveTip(ctx.baseFee).Some?;
  }

  lemma FeesStayBelow(fees: nat, gas: nat, tip: nat, gasUsed: nat)
    requires fees <= U128_MAX * gas && tip <= U128_MAX && gas + gasUsed <= U64_MAX
    ensures fees + tip * gasUsed <= U128_MAX * (gas + gasUsed) <= U256_MAX
  {
    assert tip * gasUsed <= U128_MAX * gasUsed;
    assert U128_MAX * (gas + gasUsed) <= U128_MAX * U64_MAX;
  }

  // A sidecar of the variant collected so far is appended, not dropped.
  lemma PushAppends(sidecars: BlobSidecars, s: Sidecar)
    requires sidecars.Sidecars4844? ==> s.variant == Eip4844
    requires sidecars.Sidecars7594? ==> s.variant == Eip7594
    ensures sidecars.Push(s).All() == sidecars.All() + [s]
    ensures if s.variant == Eip4844 then sidecars.Push(s).Sidecars4844? else sidecars.Push(s).Sidecars7594?
  {
  }

  lemma PoolSidecarsOfOneMore(env: Surroundings, block: seq<Included>, x: Included)
    ensures PoolSidecars(env, block + [x]) ==
            PoolSidecars(env, block) +
            (if x.tx.IsBlob() && env.getBlob(x.slot, x.tx).Found? then [env.getBlob(x.slot, x.tx).sidecar] else [])
  {
    assert (block + [x])[..|block|] == block;
  }

  // One more included transaction, with the sidecar the pool has for it.
  lemma OneMoreMatches(ctx: BlockCtx, env: Surroundings, i: nat, acc: Acc, tx: Tx, v: Verdict)
    requires SidecarsMatch(ctx, env, acc) && v.Take? && v.sidecar.Some? == tx.IsBlob()
    requires tx.IsBlob() ==>
               env.getBlob(i, tx) == Found(v.sidecar.value) && v.sidecar.value.variant == ForkVariant(ctx)
    ensures SidecarsMatch(ctx, env, Taken(acc, i, tx, v))
  {
    PoolSidecarsOfOneMore(env, acc.included, Included(tx, v.gasUsed, i));
    if tx.IsBlob() {
      PushAppends(acc.sidecars, v.sidecar.value);
    } else {
      assert PoolSidecars(env, Taken(acc, i, tx, v).included) == PoolSidecars(env, acc.included);
    }
  }

  lemma TakeKeepsAligned(ctx: BlockCtx, env: Surroundings, i: nat, acc: Acc, tx: Tx)
    requires Contracts(ctx, env) && Conserved(ctx, acc) && Aligned(ctx, env, acc) && Fits(ctx, tx)
    requires HasRoom(ctx, acc, tx.rlpLength)
    requires Judge(ctx, env, i, acc, tx).Take?
    ensures Aligned(ctx, env, Taken(acc, i, tx, Judge(ctx, env, i, acc, tx)))
  {
    TakeFacts(ctx, env, i, acc, tx);
    OneMoreMatches(ctx, env, i, acc, tx, Judge(ctx, env, i, acc, tx));
  }

  lemma TakeKeepsNonces(ctx: BlockCtx, env: Surroundings, i: nat, acc: Acc, tx: Tx)
    requires Contracts(ctx, env) && Conserved(ctx, acc) && NoncesInOrder(acc) && Fits(ctx, tx)
    requires HasRoom(ctx, acc, tx.rlpLength)
    requires Judge(ctx, env, i, acc, tx).Take?
    ensures NoncesInOrder(Taken(acc, i, tx, Judge(ctx, env, i, acc, tx)))
  {
    TakeFacts(ctx, env, i, acc, tx);
  }

  lemma TakeKeepsGreedy(ctx: BlockCtx, env: Surroundings, i: nat, acc: Acc, it: Iter, tx: Tx)
    requires Contracts(ctx, env) && Conserved(ctx, acc) && Greedy(ctx, acc, it) && Fits(ctx, tx)
    requires HasRoom(ctx, acc, tx.rlpLength)
    requires Judge(ctx, env, i, acc, tx).Take? && !(it.skipsBlobs && tx.IsBlob())
    ensures
      var acc' := Taken(acc, i, tx, Judge(ctx, env, i, acc, tx));
      && Greedy(ctx, acc', it)
      && (tx.IsBlob() && acc'.blobs == ctx.blobCap ==> Greedy(ctx, acc', it.SkipBlobs()))
  {
    var v := Judge(ctx, env, i, acc, tx);
    var acc' := Taken(acc, i, tx, v);
    TakeFacts(ctx, env, i, acc, tx);
    SumsOfOneMore(ctx.baseFee, acc.included, Included(tx, v.gasUsed, i));
    assert acc'.log[..|acc.log|] == acc.log;
    forall k | 0 <= k < |acc'.log| ensures StillDoesNotFit(ctx, acc', acc'.log[k]) {
      if k < |acc.log| { assert StillDoesNotFit(ctx, acc, acc.log[k]); }
    }
  }

  // The reason of a skip holds of the block at that moment.
  lemma SkipReason(ctx: BlockCtx, env: Surroundings, i: nat, acc: Acc, tx: Tx)
    requires acc.gas <= ctx.gasLimit && acc.blobs <= ctx.blobCap
    requires Fits(ctx, tx) && HasRoom(ctx, acc, tx.rlpLength)
    ensures StillDoesNotFit(ctx, acc, Event(tx, Judge(ctx, env, i, acc, tx), acc.chain.Nonce(tx.sender)))
  {
  }

  lemma RecordKeepsNonces(acc: Acc, tx: Tx, v: Verdict)
    requires NoncesInOrder(acc) && tx.nonce <= acc.chain.Nonce(tx.sender)
    ensures NoncesInOrder(Record(acc, tx, v))
  {
  }

  lemma SkipAddsNothing(log: seq<Event>, e: Event)
    requires !e.verdict.Take?
    ensures TakenTxs(log + [e]) == TakenTxs(log)
  {
    assert (log + [e])[..|log|] == log;
  }

  lemma RecordKeepsGreedy(ctx: BlockCtx, acc: Acc, it: Iter, tx: Tx, v: Verdict)
    requires Greedy(ctx, acc, it) && !v.Take?
    requires StillDoesNotFit(ctx, acc, Event(tx, v, acc.chain.Nonce(tx.sender)))
    ensures Greedy(ctx, Record(acc, tx, v), it)
  {
    var acc' := Record(acc, tx, v);
    SkipAddsNothing(acc.log, Event(tx, v, acc.chain.Nonce(tx.sender)));
    forall k | 0 <= k < |acc'.log| ensures StillDoesNotFit(ctx, acc', acc'.log[k]) {
      if k < |acc.log| { assert StillDoesNotFit(ctx, acc, acc.log[k]); }
    }
  }

  // --- One iteration ---

  lemma TakeKeepsBlock(ctx: BlockCtx, env: Surroundings, i: nat, acc: Acc, it: Iter, tx: Tx, acc': Acc)
    requires Contracts(ctx, env) && Fits(ctx, tx) && HasRoom(ctx, acc, tx.rlpLength)
    requires Conserved(ctx, acc) && Aligned(ctx, env, acc) && NoncesInOrder(acc) && Greedy(ctx, acc, it)
    requires Judge(ctx, env, i, acc, tx).Take? && !(it.skipsBlobs && tx.IsBlob())
    requires acc' == Taken(acc, i, tx, Judge(ctx, env, i, acc, tx))
    ensures Conserved(ctx, acc') && Aligned(ctx, env, acc') && NoncesInOrder(acc') && Greedy(ctx, acc', it)
    ensures tx.IsBlob() && acc'.blobs == ctx.blobCap ==> Greedy(ctx, acc', it.SkipBlobs())
  {
    TakeKeepsConserved(ctx, env, i, acc, tx);
    TakeKeepsAligned(ctx, env, i, acc, tx);
    TakeKeepsNonces(ctx, env, i, acc, tx);
    TakeKeepsGreedy(ctx, env, i, acc, it, tx);
  }

  lemma TakeKeepsFeed(ctx: BlockCtx, env: Surroundings, i: nat, acc: Acc, it: Iter, tx: Tx)
    requires Contracts(ctx, env) && it.Next().0 == Some(tx)
    requires acc.gas <= ctx.gasLimit && acc.blobs <= ctx.blobCap && HasRoom(ctx, acc, tx.rlpLength)
    requires FeedFits(ctx, it.feed) && Consecutive(it.feed) && HeadsReady(it, acc.chain)
    requires Judge(ctx, env, i, acc, tx).Take?
    ensures Fits(ctx, tx) && !(it.skipsBlobs && tx.IsBlob()) && it.Next().1.skipsBlobs == it.skipsBlobs
    ensures FeedFits(ctx, it.Next().1.feed) && Consecutive(it.Next().1.feed)
    ensures HeadsReady(it.Next().1, Judge(ctx, env, i, acc, tx).post)
  {
    NextKeepsFeed(ctx, it);
    NextConsumes(it);
    TakeFacts(ctx, env, i, acc, tx);
    HeadsAfterYield(ctx, it, acc.chain, Judge(ctx, env, i, acc, tx).post);
  }

  // An inclusion goes on with the block it makes, without blobs once they are all used up.
  lemma TakeStep(ctx: BlockCtx, env: Surroundings, c: Cursor, tx: Tx)
    requires c.it.Next().0 == Some(tx) && Judge(ctx, env, c.i, c.acc, tx).Take?
    ensures
      var acc := Taken(c.acc, c.i, tx, Judge(ctx, env, c.i, c.acc, tx));
      var it := c.it.Next().1;
      Advance(ctx, env, c) ==
      More(Cursor(c.i + 1, acc, if tx.IsBlob() && acc.blobs == ctx.blobCap then it.SkipBlobs() else it))
  {
  }

  lemma TakeKeepsInv(ctx: BlockCtx, env: Surroundings, c: Cursor, tx: Tx)
    requires Contracts(ctx, env) && Inv(ctx, env, c) && c.it.Next().0 == Some(tx)
    requires Judge(ctx, env, c.i, c.acc, tx).Take?
    ensures Advance(ctx, env, c).More? && Inv(ctx, env, Advance(ctx, env, c).next)
  {
    var it := c.it.Next().1;
    var acc := Taken(c.acc, c.i, tx, Judge(ctx, env, c.i, c.acc, tx));
    TakeStep(ctx, env, c, tx);
    NextKeepsRoom(ctx, c.acc, c.it);
    TakeKeepsFeed(ctx, env, c.i, c.acc, c.it, tx);
    assert Greedy(ctx, c.acc, it);
    TakeKeepsBlock(ctx, env, c.i, c.acc, it, tx, acc);
  }

  // A sender given up on no longer has to be ready; one whose nonce was too low still is.
  lemma SkipKeepsFeed(ctx: BlockCtx, it: Iter, chain: ChainState, tx: Tx)
    requires it.Next().0 == Some(tx)
    requires FeedFits(ctx, it.feed) && Consecutive(it.feed) && HeadsReady(it, chain)
    ensures Fits(ctx, tx) && tx.nonce <= chain.Nonce(tx.sender)
    ensures it.Next().1.skipsBlobs == it.skipsBlobs
    ensures FeedFits(ctx, it.Next().1.feed) && Consecutive(it.Next().1.feed)
    ensures HeadsReady(it.Next().1.MarkInvalid(tx), chain)
    ensures tx.nonce < chain.Nonce(tx.sender) ==> HeadsReady(it.Next().1, chain)
  {
    NextKeepsFeed(ctx, it);
    NextConsumes(it);
    YieldKeepsHeads(ctx, it, chain);
    if tx.nonce < chain.Nonce(tx.sender) { HeadsAfterYield(ctx, it, chain, chain); }
  }

  lemma LowNonceIsLow(ctx: BlockCtx, env: Surroundings, i: nat, acc: Acc, tx: Tx)
    requires ExecutorContract(ctx, env) && Judge(ctx, env, i, acc, tx).SkipNonceTooLow?
    ensures tx.nonce < acc.chain.Nonce(tx.sender)
  {
    assert env.exec(acc.chain, tx).InvalidTx?;
  }

  // Recording a skip for a good reason keeps the invariants, with or without the sender.
  lemma RecordKeepsInv(ctx: BlockCtx, env: Surroundings, c: Cursor, tx: Tx, v: Verdict)
    requires Inv(ctx, env, c) && c.it.Next().0 == Some(tx) && !v.Take?
    requires StillDoesNotFit(ctx, c.acc, Event(tx, v, c.acc.chain.Nonce(tx.sender)))
    ensures Inv(ctx, env, Cursor(c.i + 1, Record(c.acc, tx, v), c.it.Next().1.MarkInvalid(tx)))
    ensures tx.nonce < c.acc.chain.Nonce(tx.sender) ==>
              Inv(ctx, env, Cursor(c.i + 1, Record(c.acc, tx, v), c.it.Next().1))
  {
    SkipKeepsFeed(ctx, c.it, c.acc.chain, tx);
    NextKeepsRoom(ctx, c.acc, c.it);
    RecordKeepsNonces(c.acc, tx, v);
    RecordKeepsGreedy(ctx, c.acc, c.it, tx, v);
  }

  // A skip records the transaction, and gives up on its sender unless the nonce was too low.
  lemma SkipStep(ctx: BlockCtx, env: Surroundings, c: Cursor, tx: Tx)
    requires c.it.Next().0 == Some(tx)
    requires Advance(ctx, env, c).More? && !Judge(ctx, env, c.i, c.acc, tx).Take?
    ensures
      var v := Judge(ctx, env, c.i, c.acc, tx);
      var it := c.it.Next().1;
      Advance(ctx, env, c).next ==
      Cursor(c.i + 1, Record(c.acc, tx, v), if v.SkipNonceTooLow? then it else it.MarkInvalid(tx))
  {
  }

  lemma SkipKeepsInv(ctx: BlockCtx, env: Surroundings, c: Cursor, tx: Tx)
    requires Contracts(ctx, env) && Inv(ctx, env, c) && c.it.Next().0 == Some(tx)
    requires Advance(ctx, env, c).More? && !Judge(ctx, env, c.i, c.acc, tx).Take?
    ensures Inv(ctx, env, Advance(ctx, env, c).next)
  {
    var v := Judge(ctx, env, c.i, c.acc, tx);
    NextKeepsFeed(ctx, c.it);
    NextKeepsRoom(ctx, c.acc, c.it);
    SkipStep(ctx, env, c, tx);
    SkipReason(ctx, env, c.i, c.acc, tx);
    if v.SkipNonceTooLow? { LowNonceIsLow(ctx, env, c.i, c.acc, tx); }
    RecordKeepsInv(ctx, env, c, tx, v);
  }

  lemma AdvanceKeepsInv(ctx: BlockCtx, env: Surroundings, c: Cursor)
    requires Contracts(ctx, env) && Inv(ctx, env, c)
    ensures Advance(ctx, env, c).More? ==> Inv(ctx, env, Advance(ctx, env, c).next)
    ensures Advance(ctx, env, c).Done? ==> Inv(ctx, env, Advance(ctx, env, c).final)
  {
    var next := c.it.Next().0;
    if next.None? {
      NextKeepsFeed(ctx, c.it);
      NextKeepsRoom(ctx, c.acc, c.it);
      NextConsumes(c.it);
    } else if Judge(ctx, env, c.i, c.acc, next.value).Take? {
      TakeKeepsInv(ctx, env, c, next.value);
    } else if Advance(ctx, env, c).More? {
      SkipKeepsInv(ctx, env, c, next.value);
    }
  }

  // --- Every run ---

  lemma {:induction false} RunKeepsInv(ctx: BlockCtx, env: Surroundings, c: Cursor)
    requires Contracts(ctx, env) && Inv(ctx, env, c)
    ensures Run(ctx, env, c).Done? ==> Inv(ctx, env, Run(ctx, env, c).final)
    decreases |c.it.feed|
  {
    AdvanceKeepsInv(ctx, env, c);
    RunUnfolds(ctx, env, c);
    if Advance(ctx, env, c).More? {
      RunKeepsInv(ctx, env, Advance(ctx, env, c).next);
    }
  }

  // The loop never fails on a fee that does not cover the base fee, and ends only in ways that
  // are not a skip.
  lemma {:induction false} RunStopsFor(ctx: BlockCtx, env: Surroundings, c: Cursor)
    requires Contracts(ctx, env)
    ensures !Run(ctx, env, c).More?
    ensures Run(ctx, env, c).Stopped? ==>
              var why := Run(ctx, env, c).why;
              why.FailStore? || why.FailExec? || (why.Cancel? && exists i :: env.cancelled(i))
    decreases |c.it.feed|
  {
    RunUnfolds(ctx, env, c);
    if Advance(ctx, env, c).More? {
      RunStopsFor(ctx, env, Advance(ctx, env, c).next);
    }
  }

  // What the pool promises at the start of a build.
  ghost predicate FeedContract(ctx: BlockCtx, chain: ChainState, feed: seq<Tx>) {
    && FeedFits(ctx, feed)
    && Consecutive(feed)
    && HeadsReady(Iter(feed, {}, false), chain)
    && HasRoom(ctx, StartAcc(chain), TotalRlp(feed))
  }

  function Start(chain: ChainState, feed: seq<Tx>): Cursor {
    Cursor(0, StartAcc(chain), Iter(feed, {}, false))
  }

  // The loop was at `c` when it had done n iterations, whatever became of it afterwards; or it
  // ended there because the pool ran dry.
  ghost predicate Reached(ctx: BlockCtx, env: Surroundings, chain: ChainState, feed: seq<Tx>, n: nat, c: Cursor) {
    && Contracts(ctx, env)
    && FeedContract(ctx, chain, feed)
    && (After(ctx, env, Start(chain, feed), n) == More(c) || After(ctx, env, Start(chain, feed), n) == Done(c))
  }

  lemma {:induction false} ReachedInv(
    ctx: BlockCtx, env: Surroundings, chain: ChainState, feed: seq<Tx>, n: nat, c: Cursor)
    requires Reached(ctx, env, chain, feed, n, c)
    ensures Inv(ctx, env, c)
  {
    if n == 0 {
      assert Inv(ctx, env, Start(chain, feed));
    } else {
      var before := After(ctx, env, Start(chain, feed), n - 1);
      if before.More? {
        ReachedInv(ctx, env, chain, feed, n - 1, before.next);
        AdvanceKeepsInv(ctx, env, before.next);
      } else {
        ReachedInv(ctx, env, chain, feed, n - 1, c);
      }
    }
  }

  // A selection that finishes: everything said of reached cursors holds of its block.
  ghost predicate Finished(ctx: BlockCtx, env: Surroundings, chain: ChainState, feed: seq<Tx>, c: Cursor) {
    && Contracts(ctx, env)
    && FeedContract(ctx, chain, feed)
    && Run(ctx, env, Start(chain, feed)) == Done(c)
  }

  lemma FinishedIsReached(ctx: BlockCtx, env: Surroundings, chain: ChainState, feed: seq<Tx>, c: Cursor)
    requires Finished(ctx, env, chain, feed, c)
    ensures Reached(ctx, env, chain, feed, |feed| + 1, c)
  {
    RunIsAfter(ctx, env, Start(chain, feed), |feed| + 1);
  }
}
