// What cancelling a build does to the selection loop. The flag is looked at once in every iteration,
// behind the gas check, and once up it stays up.
module SelectionCancel {
  import opened Wrappers
  import opened Pool
  import opened Selection
  import opened SelectionInvariants

  ghost predicate CancelledFrom(env: Surroundings, n: nat) {
    forall i | i >= n :: env.cancelled(i)
  }

  // The same block with the same accumulators; only the history may have grown.
  predicate SameBlock(was: Acc, now: Acc) {
    now == was.(log := now.log)
  }

  predicate PassesGas(ctx: BlockCtx, c: Cursor) {
    var next := c.it.Next().0;
    next.Some? && c.acc.gas + next.value.gasLimit <= ctx.gasLimit
  }

  // In iteration m the pool yields a transaction that passes the gas check.
  predicate PassesGasIn(ctx: BlockCtx, env: Surroundings, start: Cursor, m: nat) {
    After(ctx, env, start, m).More? && PassesGas(ctx, After(ctx, env, start, m).next)
  }

  // One iteration that sees the flag stops the loop, unless the gas check or the end of the pool's
  // transactions comes first.
  lemma CancelledIteration(ctx: BlockCtx, env: Surroundings, c: Cursor)
    requires Inv(ctx, env, c) && env.cancelled(c.i)
    ensures
      match Advance(ctx, env, c)
      case More(next) => !PassesGas(ctx, c) && next.i == c.i + 1 && SameBlock(c.acc, next.acc)
      case Done(final) => !PassesGas(ctx, c) && SameBlock(c.acc, final.acc)
      case Stopped(why) => PassesGas(ctx, c) && why == Cancel
  {
    NextKeepsFeed(ctx, c.it);
    var next := c.it.Next().0;
    if next.Some? {
      assert WrappingAdd(c.acc.gas, next.value.gasLimit, U64_MAX) == c.acc.gas + next.value.gasLimit;
    }
  }

  lemma {:induction false} SlotIsIteration(
    ctx: BlockCtx, env: Surroundings, chain: ChainState, feed: seq<Tx>, n: nat)
    ensures
      var p := After(ctx, env, Start(chain, feed), n);
      p.More? ==> p.next.i == n
  {
    if n > 0 { SlotIsIteration(ctx, env, chain, feed, n - 1); }
  }

  // The same, for the iteration after the first m, counted from the start of the build.
  lemma CancelledStep(ctx: BlockCtx, env: Surroundings, chain: ChainState, feed: seq<Tx>, m: nat, d: Cursor)
    requires Reached(ctx, env, chain, feed, m, d) && After(ctx, env, Start(chain, feed), m) == More(d)
    requires env.cancelled(m)
    ensures
      match After(ctx, env, Start(chain, feed), m + 1)
      case More(next) => !PassesGas(ctx, d) && SameBlock(d.acc, next.acc)
      case Done(final) => !PassesGas(ctx, d) && SameBlock(d.acc, final.acc)
      case Stopped(why) => PassesGas(ctx, d) && why == Cancel
  {
    SlotIsIteration(ctx, env, chain, feed, m);
    ReachedInv(ctx, env, chain, feed, m, d);
    CancelledIteration(ctx, env, d);
  }

  // A loop that has ended stays as it ended.
  lemma {:induction false} EndIsFinal(ctx: BlockCtx, env: Surroundings, c: Cursor, m: nat, k: nat)
    requires !After(ctx, env, c, m).More? && m <= k
    ensures After(ctx, env, c, k) == After(ctx, env, c, m)
  {
    if m < k { EndIsFinal(ctx, env, c, m, k - 1); }
  }

  // The block is as it was, or the build was cancelled.
  predicate OnlyCancels(was: Acc, p: Progress) {
    match p
    case More(d) => SameBlock(was, d.acc)
    case Done(d) => SameBlock(was, d.acc)
    case Stopped(why) => why == Cancel
  }

  lemma OnlyCancelsStep(
    ctx: BlockCtx, env: Surroundings, chain: ChainState, feed: seq<Tx>, m: nat, was: Acc)
    requires Contracts(ctx, env) && FeedContract(ctx, chain, feed) && env.cancelled(m)
    requires OnlyCancels(was, After(ctx, env, Start(chain, feed), m))
    ensures OnlyCancels(was, After(ctx, env, Start(chain, feed), m + 1))
  {
    var p := After(ctx, env, Start(chain, feed), m);
    if p.More? {
      CancelledStep(ctx, env, chain, feed, m, p.next);
    } else {
      EndIsFinal(ctx, env, Start(chain, feed), m, m + 1);
    }
  }

  lemma {:induction false} OnlyCancelsFrom(path: nat -> Progress, was: Acc, n: nat, m: nat)
    requires n <= m && OnlyCancels(was, path(n))
    requires forall k | n <= k && OnlyCancels(was, path(k)) :: OnlyCancels(was, path(k + 1))
    ensures OnlyCancels(was, path(m))
  {
    if n < m { OnlyCancelsFrom(path, was, n, m - 1); }
  }

  // Once the flag is up nothing is added to the block any more, in whatever iteration the loop is,
  // and the only way left to fail is the cancellation.
  lemma NothingIncludedAfterCancel(
    ctx: BlockCtx, env: Surroundings, chain: ChainState, feed: seq<Tx>, n: nat, c: Cursor, m: nat)
    requires Contracts(ctx, env) && FeedContract(ctx, chain, feed)
    requires CancelledFrom(env, n) && After(ctx, env, Start(chain, feed), n) == More(c) && n <= m
    ensures OnlyCancels(c.acc, After(ctx, env, Start(chain, feed), m))
  {
    var path := (k: nat) => After(ctx, env, Start(chain, feed), k);
    forall k | n <= k && OnlyCancels(c.acc, path(k)) ensures OnlyCancels(c.acc, path(k + 1)) {
      OnlyCancelsStep(ctx, env, chain, feed, k, c.acc);
    }
    OnlyCancelsFrom(path, c.acc, n, m);
  }

  // In an iteration from n on that ends the loop by cancellation, the yielded transaction passed the
  // gas check.
  lemma StoppedOverATransaction(
    ctx: BlockCtx, env: Surroundings, chain: ChainState, feed: seq<Tx>, n: nat, m: nat)
    requires Contracts(ctx, env) && FeedContract(ctx, chain, feed) && CancelledFrom(env, n) && n <= m
    requires After(ctx, env, Start(chain, feed), m).More? && After(ctx, env, Start(chain, feed), m + 1).Stopped?
    ensures PassesGasIn(ctx, env, Start(chain, feed), m)
  {
    CancelledStep(ctx, env, chain, feed, m, After(ctx, env, Start(chain, feed), m).next);
  }

  // A loop that goes on after m iterations and has ended after k ends in one iteration between.
  lemma {:induction false} LastIteration(ctx: BlockCtx, env: Surroundings, c: Cursor, m: nat, k: nat)
    returns (last: nat)
    requires After(ctx, env, c, m).More? && !After(ctx, env, c, k).More? && m <= k
    ensures m <= last < k && After(ctx, env, c, last).More?
    ensures After(ctx, env, c, last + 1) == After(ctx, env, c, k)
    decreases k - m
  {
    if After(ctx, env, c, m + 1).More? {
      last := LastIteration(ctx, env, c, m + 1, k);
    } else {
      last := m;
      EndIsFinal(ctx, env, c, m + 1, k);
    }
  }

  // A transaction that passes the gas check under the flag ends the build.
  lemma PassingGasCancels(
    ctx: BlockCtx, env: Surroundings, chain: ChainState, feed: seq<Tx>, n: nat, m: nat)
    requires Contracts(ctx, env) && FeedContract(ctx, chain, feed) && CancelledFrom(env, n) && n <= m
    requires PassesGasIn(ctx, env, Start(chain, feed), m)
    ensures Run(ctx, env, Start(chain, feed)) == Stopped(Cancel)
  {
    CancelledStep(ctx, env, chain, feed, m, After(ctx, env, Start(chain, feed), m).next);
    RunEnds(ctx, env, Start(chain, feed), m + 1);
  }

  lemma RunEnds(ctx: BlockCtx, env: Surroundings, c: Cursor, m: nat)
    requires !After(ctx, env, c, m).More?
    ensures Run(ctx, env, c) == After(ctx, env, c, m)
  {
    var end := |c.it.feed| + 1 + m;
    EndIsFinal(ctx, env, c, m, end);
    RunIsAfter(ctx, env, c, end);
  }

  // A build that goes into iteration n with the flag up ends cancelled exactly when a transaction
  // yielded from then on passes the gas check; if none does it finishes with the block it had.
  lemma {:induction false} CancelledExactlyWhen(
    ctx: BlockCtx, env: Surroundings, chain: ChainState, feed: seq<Tx>, n: nat, c: Cursor)
    requires Contracts(ctx, env) && FeedContract(ctx, chain, feed)
    requires CancelledFrom(env, n) && After(ctx, env, Start(chain, feed), n) == More(c)
    ensures Run(ctx, env, Start(chain, feed)) == Stopped(Cancel) <==>
            exists m :: m >= n && PassesGasIn(ctx, env, Start(chain, feed), m)
    ensures Run(ctx, env, Start(chain, feed)) != Stopped(Cancel) ==>
              Run(ctx, env, Start(chain, feed)).Done? &&
              SameBlock(c.acc, Run(ctx, env, Start(chain, feed)).final.acc)
  {
    var start := Start(chain, feed);
    var end := |feed| + 1 + n;
    RunIsAfter(ctx, env, start, end);
    RunStopsFor(ctx, env, start);
    NothingIncludedAfterCancel(ctx, env, chain, feed, n, c, end);
    if Run(ctx, env, start).Stopped? {
      var last := LastIteration(ctx, env, start, n, end);
      StoppedOverATransaction(ctx, env, chain, feed, n, last);
    }
    if m :| m >= n && PassesGasIn(ctx, env, start, m) {
      PassingGasCancels(ctx, env, chain, feed, n, m);
    }
  }
}
