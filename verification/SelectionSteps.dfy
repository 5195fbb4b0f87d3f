// What one iteration of the selection loop does, told by the block so far, the executor's answer and
// the pool's answer alone, and from that when and why the whole loop stops.
module SelectionSteps {
  import opened Wrappers
  import opened Pool
  import opened Selection
  import opened SelectionInvariants
  import opened SelectionCancel

  // --- The checks, in exact numbers ---

  predicate GasFits(ctx: BlockCtx, acc: Acc, tx: Tx) {
    acc.gas + tx.gasLimit <= ctx.gasLimit
  }

  predicate SizeFits(ctx: BlockCtx, acc: Acc, tx: Tx) {
    ctx.isOsaka ==> acc.rlp + tx.rlpLength + ctx.withdrawalsLength + HEADER_ALLOWANCE <= MAX_RLP_BLOCK_SIZE
  }

  predicate BlobsFit(ctx: BlockCtx, acc: Acc, tx: Tx) {
    tx.blobHashes.Some? ==> acc.blobs + |tx.blobHashes.value| <= ctx.blobCap
  }

  // The transaction gets as far as the question for its sidecar, which only a blob transaction has.
  predicate Checked(ctx: BlockCtx, env: Surroundings, c: Cursor, tx: Tx) {
    GasFits(ctx, c.acc, tx) && !env.cancelled(c.i) && SizeFits(ctx, c.acc, tx) && BlobsFit(ctx, c.acc, tx)
  }

  predicate SidecarServes(ctx: BlockCtx, env: Surroundings, i: nat, tx: Tx) {
    tx.blobHashes.Some? ==>
      match env.getBlob(i, tx)
      case Found(sidecar) => ctx.isOsaka <==> sidecar.variant == Eip7594
      case Missing => false
      case StoreFailure(_) => false
  }

  // The transaction is handed to the executor.
  predicate ReachesExecutor(ctx: BlockCtx, env: Surroundings, c: Cursor, tx: Tx) {
    Checked(ctx, env, c, tx) && SidecarServes(ctx, env, c.i, tx)
  }

  predicate Succeeds(ctx: BlockCtx, env: Surroundings, c: Cursor, tx: Tx) {
    ReachesExecutor(ctx, env, c, tx) && env.exec(c.acc.chain, tx).Executed?
  }

  predicate NonceTooLow(ctx: BlockCtx, env: Surroundings, c: Cursor, tx: Tx) {
    ReachesExecutor(ctx, env, c, tx) && env.exec(c.acc.chain, tx) == InvalidTx(true)
  }

  // --- One iteration ---

  // Each verdict is reached for its own reason and no other.
  lemma VerdictExactly(ctx: BlockCtx, env: Surroundings, c: Cursor, tx: Tx)
    requires Contracts(ctx, env) && Inv(ctx, env, c) && Fits(ctx, tx) && HasRoom(ctx, c.acc, tx.rlpLength)
    ensures
      var v := Judge(ctx, env, c.i, c.acc, tx);
      && (v == SkipGas <==> !GasFits(ctx, c.acc, tx))
      && (v == Cancel <==> GasFits(ctx, c.acc, tx) && env.cancelled(c.i))
      && (v == SkipSize <==> GasFits(ctx, c.acc, tx) && !env.cancelled(c.i) && !SizeFits(ctx, c.acc, tx))
      && (v == SkipBlobCap <==>
            && GasFits(ctx, c.acc, tx) && !env.cancelled(c.i) && SizeFits(ctx, c.acc, tx)
            && !BlobsFit(ctx, c.acc, tx))
    ensures
      var v := Judge(ctx, env, c.i, c.acc, tx);
      && (v == SkipMissingSidecar <==>
            Checked(ctx, env, c, tx) && tx.blobHashes.Some? && env.getBlob(c.i, tx) == Missing)
      && (v == SkipWrongSidecar <==>
            && Checked(ctx, env, c, tx) && tx.blobHashes.Some? && env.getBlob(c.i, tx).Found?
            && !SidecarServes(ctx, env, c.i, tx))
      && (forall code :: v == FailStore(code) <==>
            Checked(ctx, env, c, tx) && tx.blobHashes.Some? && env.getBlob(c.i, tx) == StoreFailure(code))
    ensures
      var v := Judge(ctx, env, c.i, c.acc, tx);
      && (v == SkipNonceTooLow <==> NonceTooLow(ctx, env, c, tx))
      && (v == SkipInvalid <==> ReachesExecutor(ctx, env, c, tx) && env.exec(c.acc.chain, tx) == InvalidTx(false))
      && (forall code :: v == FailExec(code) <==>
            ReachesExecutor(ctx, env, c, tx) && env.exec(c.acc.chain, tx) == Fatal(code))
      && (v.Take? <==> Succeeds(ctx, env, c, tx))
      && !v.Panic?
  {
    assert env.exec(c.acc.chain, tx).Executed? ==> tx.EffectiveTip(ctx.baseFee).Some?;
  }

  lemma YieldFits(ctx: BlockCtx, env: Surroundings, c: Cursor, tx: Tx)
    requires Inv(ctx, env, c) && c.it.Next().0 == Some(tx)
    ensures Fits(ctx, tx) && HasRoom(ctx, c.acc, tx.rlpLength) && tx.sender !in c.it.Next().1.invalid
  {
    NextKeepsFeed(ctx, c.it);
    NextKeepsRoom(ctx, c.acc, c.it);
    NextConsumes(c.it);
  }

  // An iteration that is given a transaction ends the loop exactly for a cancellation seen behind
  // the gas check, a failing blob store or a failing executor, and then for that reason.
  lemma IterationStops(ctx: BlockCtx, env: Surroundings, c: Cursor, tx: Tx)
    requires Contracts(ctx, env) && Inv(ctx, env, c) && c.it.Next().0 == Some(tx)
    ensures
      var p := Advance(ctx, env, c);
      && !p.Done?
      && (p == Stopped(Cancel) <==> GasFits(ctx, c.acc, tx) && env.cancelled(c.i))
      && (forall code :: p == Stopped(FailStore(code)) <==>
            Checked(ctx, env, c, tx) && tx.blobHashes.Some? && env.getBlob(c.i, tx) == StoreFailure(code))
      && (forall code :: p == Stopped(FailExec(code)) <==>
            ReachesExecutor(ctx, env, c, tx) && env.exec(c.acc.chain, tx) == Fatal(code))
      && (p.Stopped? ==> p.why.Cancel? || p.why.FailStore? || p.why.FailExec?)
  {
    YieldFits(ctx, env, c, tx);
    VerdictExactly(ctx, env, c, tx);
  }

  // An iteration that goes on marks the sender exactly when the transaction was neither included nor
  // found to have too low a nonce. Nothing else happens to the pool's iterator, but that blobs are
  // switched off when the block has just got the last blob it may have.
  lemma IterationMarks(ctx: BlockCtx, env: Surroundings, c: Cursor, tx: Tx)
    requires Contracts(ctx, env) && Inv(ctx, env, c) && c.it.Next().0 == Some(tx)
    requires Advance(ctx, env, c).More?
    ensures
      var it, next := c.it.Next().1, Advance(ctx, env, c).next;
      && next.i == c.i + 1 && next.it.feed == it.feed
      && (tx.sender in next.it.invalid <==> !Succeeds(ctx, env, c, tx) && !NonceTooLow(ctx, env, c, tx))
      && (forall s | s != tx.sender :: s in next.it.invalid <==> s in it.invalid)
      && (next.it.skipsBlobs <==>
            it.skipsBlobs || (Succeeds(ctx, env, c, tx) && tx.blobHashes.Some? && next.acc.blobs == ctx.blobCap))
  {
    YieldFits(ctx, env, c, tx);
    VerdictExactly(ctx, env, c, tx);
  }

  // What an included transaction adds to the block: itself, with the gas it used, and to each
  // accumulator its own share. The chain moves on to what its execution left.
  lemma IterationIncludes(ctx: BlockCtx, env: Surroundings, c: Cursor, tx: Tx)
    requires Contracts(ctx, env) && Inv(ctx, env, c) && c.it.Next().0 == Some(tx)
    requires Succeeds(ctx, env, c, tx)
    ensures Advance(ctx, env, c).More?
    ensures
      var r, acc := env.exec(c.acc.chain, tx), Advance(ctx, env, c).next.acc;
      && acc.included == c.acc.included + [Included(tx, r.gasUsed, c.i)]
      && acc.chain == r.post
      && acc.gas == c.acc.gas + r.gasUsed
      && acc.blobs == c.acc.blobs + (if tx.blobHashes.Some? then |tx.blobHashes.value| else 0)
      && acc.rlp == c.acc.rlp + tx.rlpLength
      && acc.fees == c.acc.fees + TipOf(tx, ctx.baseFee) * r.gasUsed
      && acc.sidecars.All() ==
         c.acc.sidecars.All() + (if tx.blobHashes.Some? then [env.getBlob(c.i, tx).sidecar] else [])
  {
    YieldFits(ctx, env, c, tx);
    VerdictExactly(ctx, env, c, tx);
    TakeFacts(ctx, env, c.i, c.acc, tx);
    FeesStayBelow(c.acc.fees, c.acc.gas, TipOf(tx, ctx.baseFee), env.exec(c.acc.chain, tx).gasUsed);
    if tx.blobHashes.Some? { PushAppends(c.acc.sidecars, env.getBlob(c.i, tx).sidecar); }
  }

  // A transaction that is not included leaves the block and every accumulator as they were.
  lemma IterationSkips(ctx: BlockCtx, env: Surroundings, c: Cursor, tx: Tx)
    requires Contracts(ctx, env) && Inv(ctx, env, c) && c.it.Next().0 == Some(tx)
    requires Advance(ctx, env, c).More? && !Succeeds(ctx, env, c, tx)
    ensures SameBlock(c.acc, Advance(ctx, env, c).next.acc)
  {
    YieldFits(ctx, env, c, tx);
    VerdictExactly(ctx, env, c, tx);
  }

  // The history grows by the transaction, the verdict on it, and its sender's nonce at that moment.
  lemma IterationIsLogged(ctx: BlockCtx, env: Surroundings, c: Cursor, tx: Tx)
    requires c.it.Next().0 == Some(tx) && Advance(ctx, env, c).More?
    ensures Advance(ctx, env, c).next.acc.log ==
            c.acc.log + [Event(tx, Judge(ctx, env, c.i, c.acc, tx), c.acc.chain.Nonce(tx.sender))]
  {
  }

  // --- The whole loop ---

  // The yielded transaction of iteration m gives the reason to stop.
  ghost predicate GivesReason(ctx: BlockCtx, env: Surroundings, c: Cursor, why: Verdict) {
    var next := c.it.Next().0;
    next.Some? &&
    match why
    case Cancel => GasFits(ctx, c.acc, next.value) && env.cancelled(c.i)
    case FailStore(code) =>
      && Checked(ctx, env, c, next.value) && next.value.blobHashes.Some?
      && env.getBlob(c.i, next.value) == StoreFailure(code)
    case FailExec(code) =>
      ReachesExecutor(ctx, env, c, next.value) && env.exec(c.acc.chain, next.value) == Fatal(code)
    case _ => false
  }

  ghost predicate StopsIn(ctx: BlockCtx, env: Surroundings, start: Cursor, m: nat, why: Verdict) {
    After(ctx, env, start, m).More? && GivesReason(ctx, env, After(ctx, env, start, m).next, why)
  }

  lemma StepStops(ctx: BlockCtx, env: Surroundings, chain: ChainState, feed: seq<Tx>, m: nat, why: Verdict)
    requires Contracts(ctx, env) && FeedContract(ctx, chain, feed)
    requires After(ctx, env, Start(chain, feed), m).More?
    ensures After(ctx, env, Start(chain, feed), m + 1) == Stopped(why) <==>
            StopsIn(ctx, env, Start(chain, feed), m, why)
  {
    var c := After(ctx, env, Start(chain, feed), m).next;
    ReachedInv(ctx, env, chain, feed, m, c);
    if c.it.Next().0.Some? { IterationStops(ctx, env, c, c.it.Next().0.value); }
  }

  lemma ReasonStops(
    ctx: BlockCtx, env: Surroundings, chain: ChainState, feed: seq<Tx>, m: nat, why: Verdict)
    requires Contracts(ctx, env) && FeedContract(ctx, chain, feed)
    requires StopsIn(ctx, env, Start(chain, feed), m, why)
    ensures Run(ctx, env, Start(chain, feed)) == Stopped(why)
  {
    StepStops(ctx, env, chain, feed, m, why);
    RunEnds(ctx, env, Start(chain, feed), m + 1);
  }

  lemma StopHasReason(ctx: BlockCtx, env: Surroundings, chain: ChainState, feed: seq<Tx>, why: Verdict)
    returns (m: nat)
    requires Contracts(ctx, env) && FeedContract(ctx, chain, feed)
    requires Run(ctx, env, Start(chain, feed)) == Stopped(why)
    ensures StopsIn(ctx, env, Start(chain, feed), m, why)
  {
    var start := Start(chain, feed);
    RunIsAfter(ctx, env, start, |feed| + 1);
    m := LastIteration(ctx, env, start, 0, |feed| + 1);
    StepStops(ctx, env, chain, feed, m, why);
  }

  // A build is cancelled, or fails on the blob store or on the executor, exactly when the loop gets
  // to an iteration whose transaction gives that reason.
  lemma StopsExactlyWhen(ctx: BlockCtx, env: Surroundings, chain: ChainState, feed: seq<Tx>, why: Verdict)
    requires Contracts(ctx, env) && FeedContract(ctx, chain, feed)
    ensures Run(ctx, env, Start(chain, feed)) == Stopped(why) <==>
            exists m: nat :: StopsIn(ctx, env, Start(chain, feed), m, why)
  {
    if Run(ctx, env, Start(chain, feed)) == Stopped(why) {
      var m := StopHasReason(ctx, env, chain, feed, why);
    }
    if m: nat :| StopsIn(ctx, env, Start(chain, feed), m, why) {
      ReasonStops(ctx, env, chain, feed, m, why);
    }
  }
}
