// The selection loop of the payload builder.
module Selection {
  import opened Wrappers
  import opened Pool

  // EIP-7934: the maximum block size of 10 MiB less a margin of 2 MiB.
  const MAX_RLP_BLOCK_SIZE: nat := 8_388_608
  const HEADER_ALLOWANCE: nat := 1024

  // What stays fixed during one build.
  datatype BlockCtx = BlockCtx(
    gasLimit: nat, baseFee: nat, blobCap: nat, isOsaka: bool, withdrawalsLength: nat)

  // The chain state a build executes on; `rest` stands for everything but the nonces.
  datatype ChainState = ChainState(nonces: map<nat, nat>, rest: nat) {
    function Nonce(sender: nat): nat { if sender in nonces then nonces[sender] else 0 }
  }

  datatype ExecResult =
    | Executed(gasUsed: nat, post: ChainState)
    | InvalidTx(nonceTooLow: bool)
    | Fatal(code: nat)

  // The executor, the blob store and the cancellation flag; the last two may answer differently in
  // every iteration.
  datatype Surroundings = Surroundings(
    exec: (ChainState, Tx) -> ExecResult,
    getBlob: (nat, Tx) -> BlobLookup,
    cancelled: nat -> bool)

  // Execution succeeds only at the sender's exact nonce with fees that cover the base fee, uses at
  // most the gas limit, raises that nonce and lowers none; a blob transaction has at least one
  // hash (EIP-4844, section "Specification"). A nonce is called too low only if it is.
  ghost predicate ExecutorContract(ctx: BlockCtx, env: Surroundings) {
    forall st, tx {:trigger env.exec(st, tx)} ::
      match env.exec(st, tx)
      case Executed(gasUsed, post) =>
        && tx.nonce == st.Nonce(tx.sender) < post.Nonce(tx.sender)
        && (forall s {:trigger post.Nonce(s)} :: st.Nonce(s) <= post.Nonce(s))
        && gasUsed <= tx.gasLimit
        && tx.maxFeePerGas >= ctx.baseFee
        && (tx.IsBlob() ==> tx.BlobCount() > 0)
      case InvalidTx(nonceTooLow) => nonceTooLow ==> tx.nonce < st.Nonce(tx.sender)
      case Fatal(_) => true
  }

  // The pool admits a blob transaction only with a sidecar for exactly its hashes.
  ghost predicate BlobStoreContract(env: Surroundings) {
    forall i, tx {:trigger env.getBlob(i, tx)} ::
      env.getBlob(i, tx).Found? ==> tx.blobHashes == Some(env.getBlob(i, tx).sidecar.hashes)
  }

  // A transaction of the block: `slot` is the iteration that included it.
  datatype Included = Included(tx: Tx, gasUsed: nat, slot: nat)

  datatype Verdict =
    | SkipGas
    | SkipSize
    | SkipBlobCap
    | SkipMissingSidecar
    | SkipWrongSidecar
    | SkipNonceTooLow
    | SkipInvalid
    | Take(sidecar: Option<Sidecar>, gasUsed: nat, post: ChainState, tip: nat)
    | Cancel
    | FailStore(code: nat)
    | FailExec(code: nat)
    | Panic

  // A yielded transaction, what became of it, and its sender's nonce at that moment.
  datatype Event = Event(tx: Tx, verdict: Verdict, stateNonce: nat)

  // The accumulators of the loop, the block under construction and (as history) the events.
  datatype Acc = Acc(
    gas: nat, blobs: nat, rlp: nat, fees: nat, sidecars: BlobSidecars,
    chain: ChainState, included: seq<Included>, log: seq<Event>)

  function StartAcc(chain: ChainState): Acc {
    Acc(0, 0, 0, 0, NoSidecars, chain, [], [])
  }

  // --- One transaction ---

  function JudgeExecution(ctx: BlockCtx, env: Surroundings, acc: Acc, tx: Tx, sidecar: Option<Sidecar>): Verdict {
    match env.exec(acc.chain, tx)
    case Executed(gasUsed, post) =>
      (match tx.EffectiveTip(ctx.baseFee)
       case Some(tip) => Take(sidecar, gasUsed, post, tip)
       case None => Panic)
    case InvalidTx(nonceTooLow) => if nonceTooLow then SkipNonceTooLow else SkipInvalid
    case Fatal(code) => FailExec(code)
  }

  function Judge(ctx: BlockCtx, env: Surroundings, i: nat, acc: Acc, tx: Tx): Verdict {
    if WrappingAdd(acc.gas, tx.gasLimit, U64_MAX) > ctx.gasLimit then SkipGas
    else if env.cancelled(i) then Cancel
    else if ctx.isOsaka && SizeWith(ctx, acc, tx) > MAX_RLP_BLOCK_SIZE then SkipSize
    else if tx.IsBlob() then
      if WrappingAdd(acc.blobs, tx.BlobCount(), U64_MAX) > ctx.blobCap then SkipBlobCap
      else match env.getBlob(i, tx)
        case StoreFailure(code) => FailStore(code)
        case Missing => SkipMissingSidecar
        case Found(sidecar) =>
          if ctx.isOsaka <==> sidecar.variant == Eip7594
          then JudgeExecution(ctx, env, acc, tx, Some(sidecar))
          else SkipWrongSidecar
    else JudgeExecution(ctx, env, acc, tx, None)
  }

  // The block size estimate, as the loop computes it.
  function SizeWith(ctx: BlockCtx, acc: Acc, tx: Tx): nat {
    AddLengths(AddLengths(AddLengths(acc.rlp, tx.rlpLength), ctx.withdrawalsLength), HEADER_ALLOWANCE)
  }

  // Lengths are added as 64-bit numbers.
  function AddLengths(a: nat, b: nat): (r: nat)
    ensures a + b <= U64_MAX ==> r == a + b
  {
    WrappingAdd(a, b, U64_MAX)
  }

  function Record(acc: Acc, tx: Tx, verdict: Verdict): Acc {
    acc.(log := acc.log + [Event(tx, verdict, acc.chain.Nonce(tx.sender))])
  }

  function Taken(acc: Acc, i: nat, tx: Tx, v: Verdict): Acc
    requires v.Take?
  {
    Acc(WrappingAdd(acc.gas, v.gasUsed, U64_MAX),
        if tx.IsBlob() then WrappingAdd(acc.blobs, tx.BlobCount(), U64_MAX) else acc.blobs,
        AddLengths(acc.rlp, tx.rlpLength),
        WrappingAdd(acc.fees, v.tip * v.gasUsed, U256_MAX),
        if v.sidecar.Some? then acc.sidecars.Push(v.sidecar.value) else acc.sidecars,
        v.post,
        acc.included + [Included(tx, v.gasUsed, i)],
        acc.log + [Event(tx, v, acc.chain.Nonce(tx.sender))])
  }

  // --- The loop ---

  datatype Cursor = Cursor(i: nat, acc: Acc, it: Iter)

  datatype Progress = More(next: Cursor) | Done(final: Cursor) | Stopped(why: Verdict)

  function Advance(ctx: BlockCtx, env: Surroundings, c: Cursor): Progress {
    match c.it.Next()
    case (None, it) => Done(c.(it := it))
    case (Some(tx), it) => Decide(ctx, env, Cursor(c.i, c.acc, it), tx)
  }

  function Decide(ctx: BlockCtx, env: Surroundings, c: Cursor, tx: Tx): Progress {
    Apply(ctx, c, tx, Judge(ctx, env, c.i, c.acc, tx))
  }

  // Every skip but the one for a low nonce gives up on the sender.
  function Apply(ctx: BlockCtx, c: Cursor, tx: Tx, v: Verdict): Progress {
    match v
    case Take(_, _, _, _) =>
      var acc := Taken(c.acc, c.i, tx, v);
      More(Cursor(c.i + 1, acc, if tx.IsBlob() && acc.blobs == ctx.blobCap then c.it.SkipBlobs() else c.it))
    case Cancel => Stopped(v)
    case FailStore(_) => Stopped(v)
    case FailExec(_) => Stopped(v)
    case Panic => Stopped(v)
    case SkipNonceTooLow => More(Cursor(c.i + 1, Record(c.acc, tx, v), c.it))
    case _ => More(Cursor(c.i + 1, Record(c.acc, tx, v), c.it.MarkInvalid(tx)))
  }

  lemma AdvanceConsumes(ctx: BlockCtx, env: Surroundings, c: Cursor)
    ensures Advance(ctx, env, c).More? ==> |Advance(ctx, env, c).next.it.feed| < |c.it.feed|
  {
    NextConsumes(c.it);
  }

  function Run(ctx: BlockCtx, env: Surroundings, c: Cursor): Progress
    decreases |c.it.feed|
  {
    match Advance(ctx, env, c)
    case More(next) =>
      AdvanceConsumes(ctx, env, c);
      Run(ctx, env, next)
    case Done(final) => Done(final)
    case Stopped(why) => Stopped(why)
  }

  // One unfolding of the loop.
  lemma RunUnfolds(ctx: BlockCtx, env: Surroundings, c: Cursor)
    ensures Run(ctx, env, c) ==
            if Advance(ctx, env, c).More? then Run(ctx, env, Advance(ctx, env, c).next) else Advance(ctx, env, c)
    ensures Advance(ctx, env, c).More? ==> |Advance(ctx, env, c).next.it.feed| < |c.it.feed|
  {
    AdvanceConsumes(ctx, env, c);
  }

  // Where the loop is after n iterations, or how it ended in one of them.
  function After(ctx: BlockCtx, env: Surroundings, c: Cursor, n: nat): Progress {
    if n == 0 then More(c)
    else match After(ctx, env, c, n - 1)
      case More(next) => Advance(ctx, env, next)
      case Done(final) => Done(final)
      case Stopped(why) => Stopped(why)
  }

  // The iterations can be counted from the front as well.
  lemma {:induction false} AfterFirst(ctx: BlockCtx, env: Surroundings, c: Cursor, n: nat)
    requires n > 0
    ensures After(ctx, env, c, n) ==
            match Advance(ctx, env, c)
            case More(next) => After(ctx, env, next, n - 1)
            case Done(final) => Done(final)
            case Stopped(why) => Stopped(why)
  {
    if n > 1 { AfterFirst(ctx, env, c, n - 1); }
  }

  // The whole loop is over after one iteration more than the feed is long.
  lemma {:induction false} RunIsAfter(ctx: BlockCtx, env: Surroundings, c: Cursor, n: nat)
    requires n > |c.it.feed|
    ensures After(ctx, env, c, n) == Run(ctx, env, c)
    decreases |c.it.feed|
  {
    RunUnfolds(ctx, env, c);
    AfterFirst(ctx, env, c, n);
    if Advance(ctx, env, c).More? { RunIsAfter(ctx, env, Advance(ctx, env, c).next, n - 1); }
  }

  // --- The loop as it is written ---

  // The block under construction: the loop's accumulators. The log is history.
  class BlockInProgress {
    var cumulativeGasUsed: nat
    var blockBlobCount: nat
    var rlpLength: nat
    var totalFees: nat
    var blobSidecars: BlobSidecars
    var state: ChainState
    var included: seq<Included>
    ghost var log: seq<Event>

    ghost function View(): Acc
      reads this
    {
      Acc(cumulativeGasUsed, blockBlobCount, rlpLength, totalFees, blobSidecars, state, included, log)
    }

    constructor (chain: ChainState)
      ensures View() == StartAcc(chain)
    {
      cumulativeGasUsed, blockBlobCount, rlpLength, totalFees := 0, 0, 0, 0;
      blobSidecars, state, included, log := NoSidecars, chain, [], [];
    }

    // The checks made on one yielded transaction, and its execution. Nothing is accumulated yet.
    method Attempt(ctx: BlockCtx, env: Surroundings, i: nat, tx: Tx) returns (v: Verdict)
      ensures v == Judge(ctx, env, i, View(), tx)
    {
      if WrappingAdd(cumulativeGasUsed, tx.gasLimit, U64_MAX) > ctx.gasLimit {
        return SkipGas;
      }
      if env.cancelled(i) {
        return Cancel;
      }
      var estimate := AddLengths(rlpLength, tx.rlpLength);
      estimate := AddLengths(estimate, ctx.withdrawalsLength);
      estimate := AddLengths(estimate, HEADER_ALLOWANCE);
      if ctx.isOsaka && estimate > MAX_RLP_BLOCK_SIZE {
        return SkipSize;
      }
      var sidecar: Option<Sidecar> := None;
      if tx.blobHashes.Some? {
        if WrappingAdd(blockBlobCount, |tx.blobHashes.value|, U64_MAX) > ctx.blobCap {
          return SkipBlobCap;
        }
        var lookup := env.getBlob(i, tx);
        if lookup.StoreFailure? {
          return FailStore(lookup.code);
        }
        if lookup.Missing? {
          return SkipMissingSidecar;
        }
        if lookup.sidecar.variant != (if ctx.isOsaka then Eip7594 else Eip4844) {
          return SkipWrongSidecar;
        }
        sidecar := Some(lookup.sidecar);
      }
      var outcome := env.exec(state, tx);
      match outcome {
        case InvalidTx(nonceTooLow) =>
          return if nonceTooLow then SkipNonceTooLow else SkipInvalid;
        case Fatal(code) =>
          return FailExec(code);
        case Executed(gasUsed, post) =>
          var tip := tx.EffectiveTip(ctx.baseFee);
          if tip.None? {
            return Panic;
          }
          return Take(sidecar, gasUsed, post, tip.value);
      }
    }

    // Accounts for an executed transaction.
    method Include(i: nat, tx: Tx, v: Verdict)
      requires v.Take?
      modifies this
      ensures View() == Taken(old(View()), i, tx, v)
    {
      log := log + [Event(tx, v, state.Nonce(tx.sender))];
      state := v.post;
      included := included + [Included(tx, v.gasUsed, i)];
      if tx.blobHashes.Some? {
        blockBlobCount := WrappingAdd(blockBlobCount, |tx.blobHashes.value|, U64_MAX);
      }
      rlpLength := AddLengths(rlpLength, tx.rlpLength);
      totalFees := WrappingAdd(totalFees, v.tip * v.gasUsed, U256_MAX);
      cumulativeGasUsed := WrappingAdd(cumulativeGasUsed, v.gasUsed, U64_MAX);
      if v.sidecar.Some? {
        blobSidecars := blobSidecars.Push(v.sidecar.value);
      }
    }

    // A skipped transaction leaves everything but the history as it was.
    ghost method Skip(tx: Tx, v: Verdict)
      modifies this`log
      ensures View() == Record(old(View()), tx, v)
    {
      log := log + [Event(tx, v, state.Nonce(tx.sender))];
    }

    // One iteration. `more` is false when the loop ends here, with the reason if it failed.
    method Iterate(ctx: BlockCtx, env: Surroundings, i: nat, best: BestTransactions)
      returns (more: bool, failure: Option<Verdict>)
      modifies this, best
      ensures match Advance(ctx, env, Cursor(i, old(View()), old(best.View())))
              case More(next) => more && failure == None && next == Cursor(i + 1, View(), best.View())
              case Done(final) => !more && failure == None && final == Cursor(i, View(), best.View())
              case Stopped(why) => !more && failure == Some(why)
    {
      var next := best.Next();
      if next.None? {
        return false, None;
      }
      var tx := next.value;
      var v := Attempt(ctx, env, i, tx);
      if v.Cancel? || v.FailStore? || v.FailExec? || v.Panic? {
        return false, Some(v);
      }
      if v.Take? {
        Include(i, tx, v);
        if tx.blobHashes.Some? && blockBlobCount == ctx.blobCap {
          best.SkipBlobs();
        }
      } else {
        Skip(tx, v);
        if !v.SkipNonceTooLow? {
          best.MarkInvalid(tx);
        }
      }
      return true, None;
    }

    // Selects transactions until the pool runs dry, the build is cancelled or something fails.
    method SelectTransactions(ctx: BlockCtx, env: Surroundings, best: BestTransactions)
      returns (failure: Option<Verdict>)
      modifies this, best
      ensures match Run(ctx, env, Cursor(0, old(View()), old(best.View())))
              case Done(final) => failure == None && View() == final.acc && best.View() == final.it
              case Stopped(why) => failure == Some(why)
              case More(_) => false
    {
      var i: nat, more := 0, true;
      failure := None;
      ghost var start := Cursor(0, View(), best.View());
      while more
        invariant more ==> Run(ctx, env, Cursor(i, View(), best.View())) == Run(ctx, env, start)
        invariant !more ==> match Run(ctx, env, start)
                            case Done(final) => failure == None && View() == final.acc && best.View() == final.it
                            case Stopped(why) => failure == Some(why)
                            case More(_) => false
        decreases more, |best.feed|
      {
        RunUnfolds(ctx, env, Cursor(i, View(), best.View()));
        more, failure := Iterate(ctx, env, i, best);
        i := i + 1;
      }
    }
  }
}
