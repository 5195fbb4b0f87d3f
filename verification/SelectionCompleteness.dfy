// Nothing the pool offers is passed over without a recorded reason.
module SelectionCompleteness {
  import opened Wrappers
  import opened Pool
  import opened Selection
  import opened SelectionInvariants

  ghost predicate Logged(log: seq<Event>, tx: Tx) {
    exists k | 0 <= k < |log| :: log[k].tx == tx
  }

  // The loop gave up on a sender over one of its transactions.
  ghost predicate GivenUp(log: seq<Event>, sender: nat) {
    exists k | 0 <= k < |log| ::
      log[k].tx.sender == sender && !log[k].verdict.Take? && !log[k].verdict.SkipNonceTooLow?
  }

  ghost predicate OffersBlob(offered: seq<Tx>, sender: nat) {
    exists tx | tx in offered :: tx.sender == sender && tx.IsBlob()
  }

  // A sender is marked for a logged skip, or because its blob transaction was withheld.
  ghost predicate MarkedForReason(offered: seq<Tx>, log: seq<Event>, it: Iter) {
    forall s | s in it.invalid :: GivenUp(log, s) || (it.skipsBlobs && OffersBlob(offered, s))
  }

  // Every offered transaction is still to come, was judged, or has a marked sender.
  ghost predicate Accounted(offered: seq<Tx>, c: Cursor) {
    && (forall tx | tx in c.it.feed :: tx in offered)
    && (forall tx | tx in offered :: tx in c.it.feed || Logged(c.acc.log, tx) || tx.sender in c.it.invalid)
    && MarkedForReason(offered, c.acc.log, c.it)
  }

  // What a yield removes from the feed besides the yielded transaction has a marked sender.
  lemma {:induction false} NextAccounts(offered: seq<Tx>, log: seq<Event>, it: Iter)
    requires forall tx | tx in it.feed :: tx in offered
    requires MarkedForReason(offered, log, it)
    ensures
      var (next, it') := it.Next();
      && it.invalid <= it'.invalid
      && (forall tx | tx in it'.feed :: tx in offered)
      && (next.Some? ==> next.value in offered)
      && (forall tx | tx in it.feed :: tx in it'.feed || next == Some(tx) || tx.sender in it'.invalid)
      && MarkedForReason(offered, log, it')
    decreases |it.feed|
  {
    if it.feed != [] {
      var tx, rest := it.feed[0], it.(feed := it.feed[1..]);
      assert it.feed == [tx] + rest.feed;
      assert tx in it.feed;
      if tx.sender in it.invalid {
        NextAccounts(offered, log, rest);
      } else if it.skipsBlobs && tx.IsBlob() {
        assert OffersBlob(offered, tx.sender);
        NextAccounts(offered, log, rest.MarkInvalid(tx));
      }
    }
  }

  // One more event, for a transaction that is marked if the loop gave up on it.
  lemma LogGrows(offered: seq<Tx>, log: seq<Event>, e: Event, it: Iter, it': Iter)
    requires MarkedForReason(offered, log, it)
    requires it'.invalid == it.invalid ||
             (it'.invalid == it.invalid + {e.tx.sender} && !e.verdict.Take? && !e.verdict.SkipNonceTooLow?)
    requires it.skipsBlobs ==> it'.skipsBlobs
    ensures MarkedForReason(offered, log + [e], it')
    ensures Logged(log + [e], e.tx)
    ensures forall tx | Logged(log, tx) :: Logged(log + [e], tx)
  {
    var log' := log + [e];
    assert log'[|log|] == e;
    forall tx | Logged(log, tx) ensures Logged(log', tx) {
      var k :| 0 <= k < |log| && log[k].tx == tx;
      assert log'[k].tx == tx;
    }
    forall s | s in it'.invalid ensures GivenUp(log', s) || (it'.skipsBlobs && OffersBlob(offered, s)) {
      if s in it.invalid && GivenUp(log, s) {
        var k :| 0 <= k < |log| && log[k].tx.sender == s && !log[k].verdict.Take? && !log[k].verdict.SkipNonceTooLow?;
        assert log'[k] == log[k];
      }
    }
  }

  lemma AdvanceAccounts(offered: seq<Tx>, ctx: BlockCtx, env: Surroundings, c: Cursor)
    requires Accounted(offered, c)
    ensures Advance(ctx, env, c).More? ==> Accounted(offered, Advance(ctx, env, c).next)
    ensures Advance(ctx, env, c).Done? ==>
              Accounted(offered, Advance(ctx, env, c).final) && Advance(ctx, env, c).final.it.feed == []
  {
    NextAccounts(offered, c.acc.log, c.it);
    NextConsumes(c.it);
    var (next, it) := c.it.Next();
    var after := Advance(ctx, env, c);
    if after.More? {
      var v := Judge(ctx, env, c.i, c.acc, next.value);
      var e := Event(next.value, v, c.acc.chain.Nonce(next.value.sender));
      assert after.next.acc.log == c.acc.log + [e];
      LogGrows(offered, c.acc.log, e, it, after.next.it);
    }
  }

  lemma {:induction false} RunAccounts(offered: seq<Tx>, ctx: BlockCtx, env: Surroundings, c: Cursor)
    requires Accounted(offered, c)
    ensures Run(ctx, env, c).Done? ==>
              Accounted(offered, Run(ctx, env, c).final) && Run(ctx, env, c).final.it.feed == []
    decreases |c.it.feed|
  {
    AdvanceAccounts(offered, ctx, env, c);
    RunUnfolds(ctx, env, c);
    if Advance(ctx, env, c).More? {
      RunAccounts(offered, ctx, env, Advance(ctx, env, c).next);
    }
  }

  // When a selection finishes, each transaction the pool offered was judged itself, or comes from a
  // sender the loop gave up on over a judged transaction, or from one whose blob transaction came
  // when the block held all the blobs it may.
  lemma NothingIsPassedOverSilently(ctx: BlockCtx, env: Surroundings, chain: ChainState, feed: seq<Tx>, c: Cursor)
    requires Finished(ctx, env, chain, feed, c)
    ensures forall tx | tx in feed ::
              || Logged(c.acc.log, tx)
              || GivenUp(c.acc.log, tx.sender)
              || (OffersBlob(feed, tx.sender) && c.acc.blobs == ctx.blobCap)
  {
    RunAccounts(feed, ctx, env, Start(chain, feed));
    FinishedIsReached(ctx, env, chain, feed, c);
    ReachedInv(ctx, env, chain, feed, |feed| + 1, c);
  }
}
