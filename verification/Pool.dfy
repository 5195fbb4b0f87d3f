// The transaction pool as the payload builder sees it: pooled transactions, their blob sidecars,
// and the iterator over the best of them.
module Pool {
  import opened Wrappers

  // `maxPriorityFee` is absent for transactions that pay a plain gas price; `blobHashes` is
  // present exactly for EIP-4844 transactions.
  datatype Tx = Tx(
    id: nat, sender: nat, nonce: nat, gasLimit: nat, rlpLength: nat,
    maxFeePerGas: nat, maxPriorityFee: Option<nat>,
    blobHashes: Option<seq<nat>>)
  {
    predicate IsBlob() { blobHashes.Some? }

    function BlobCount(): nat { if blobHashes.Some? then |blobHashes.value| else 0 }

    // What the proposer earns per unit of gas; None when the fee does not cover the base fee.
    function EffectiveTip(baseFee: nat): Option<nat> {
      if maxFeePerGas < baseFee then None
      else match maxPriorityFee
        case Some(tip) => Some(if tip < maxFeePerGas - baseFee then tip else maxFeePerGas - baseFee)
        case None => Some(maxFeePerGas - baseFee)
    }
  }

  datatype SidecarVariant = Eip4844 | Eip7594

  // `hashes` holds the versioned hash of each blob.
  datatype Sidecar = Sidecar(variant: SidecarVariant, hashes: seq<nat>)

  datatype BlobLookup = Found(sidecar: Sidecar) | Missing | StoreFailure(code: nat)

  // The sidecars of a block under construction: one list of one variant.
  datatype BlobSidecars =
    | NoSidecars
    | Sidecars4844(list: seq<Sidecar>)
    | Sidecars7594(list: seq<Sidecar>)
  {
    // Upstream push: a sidecar of the other variant is dropped.
    function Push(s: Sidecar): BlobSidecars {
      match this
      case NoSidecars => if s.variant == Eip4844 then Sidecars4844([s]) else Sidecars7594([s])
      case Sidecars4844(list) => if s.variant == Eip4844 then Sidecars4844(list + [s]) else this
      case Sidecars7594(list) => if s.variant == Eip7594 then Sidecars7594(list + [s]) else this
    }

    function All(): seq<Sidecar> {
      match this
      case NoSidecars => []
      case Sidecars4844(list) => list
      case Sidecars7594(list) => list
    }
  }

  // --- The best-transactions iterator ---

  // `feed` is everything the pool will still offer, in the order it will offer it, including
  // transactions that arrive during the build. Marked senders are skipped, and so are blob
  // transactions once blobs are switched off, which marks their senders.
  datatype Iter = Iter(feed: seq<Tx>, invalid: set<nat>, skipsBlobs: bool) {
    function MarkInvalid(tx: Tx): Iter { this.(invalid := invalid + {tx.sender}) }

    function SkipBlobs(): Iter { this.(skipsBlobs := true) }

    function Next(): (Option<Tx>, Iter)
      decreases |feed|
    {
      if feed == [] then (None, this)
      else
        var tx, rest := feed[0], this.(feed := feed[1..]);
        if tx.sender in invalid then rest.Next()
        else if skipsBlobs && tx.IsBlob() then rest.MarkInvalid(tx).Next()
        else (Some(tx), rest)
    }
  }

  lemma {:induction false} NextConsumes(it: Iter)
    ensures it.Next().0.Some? ==> |it.Next().1.feed| < |it.feed|
    ensures it.Next().1.skipsBlobs == it.skipsBlobs && it.invalid <= it.Next().1.invalid
    ensures it.Next().0.None? ==> it.Next().1.feed == []
    ensures it.Next().0.Some? ==>
              it.Next().0.value.sender !in it.Next().1.invalid && !(it.skipsBlobs && it.Next().0.value.IsBlob())
    decreases |it.feed|
  {
    if it.feed != [] {
      var tx, rest := it.feed[0], it.(feed := it.feed[1..]);
      if tx.sender in it.invalid { NextConsumes(rest); }
      else if it.skipsBlobs && tx.IsBlob() { NextConsumes(rest.MarkInvalid(tx)); }
    }
  }

  // The tip is what the sender offers, as far as the fee leaves room for it above the base fee, and
  // there is none when the fee is below the base fee.
  lemma TipIsWhatTheFeeLeaves(tx: Tx, baseFee: nat)
    ensures tx.EffectiveTip(baseFee).None? <==> tx.maxFeePerGas < baseFee
    ensures tx.EffectiveTip(baseFee).Some? ==>
              var tip := tx.EffectiveTip(baseFee).value;
              && baseFee + tip <= tx.maxFeePerGas
              && (tx.maxPriorityFee.Some? ==> tip <= tx.maxPriorityFee.value)
              && (baseFee + tip == tx.maxFeePerGas || tx.maxPriorityFee == Some(tip))
  {
  }

  // The yielded transaction is the first of the feed whose sender is not marked and which is not a
  // blob transaction while those are withheld. All before it is dropped, and the senders of the blob
  // transactions among that are marked.
  lemma {:induction false} NextIsTheFirst(it: Iter) returns (k: nat)
    ensures k <= |it.feed| && (it.Next().0.None? <==> k == |it.feed|)
    ensures it.Next().0.Some? ==> it.Next().0 == Some(it.feed[k]) && it.Next().1.feed == it.feed[k + 1..]
    ensures forall j | 0 <= j < k ::
              it.feed[j].sender in it.invalid ||
              (it.feed[j].sender in it.Next().1.invalid && it.skipsBlobs)
    ensures forall s :: s in it.Next().1.invalid <==>
              s in it.invalid ||
              (it.skipsBlobs && exists j | 0 <= j < k :: it.feed[j].sender == s && it.feed[j].IsBlob())
    decreases |it.feed|
  {
    if it.feed == [] {
      k := 0;
    } else {
      var tx, rest := it.feed[0], it.(feed := it.feed[1..]);
      if tx.sender in it.invalid {
        k := NextIsTheFirst(rest);
        k := k + 1;
      } else if it.skipsBlobs && tx.IsBlob() {
        k := NextIsTheFirst(rest.MarkInvalid(tx));
        k := k + 1;
      } else {
        k := 0;
      }
    }
  }

  class BestTransactions {
    var feed: seq<Tx>
    var invalid: set<nat>
    var skipsBlobs: bool

    ghost function View(): Iter
      reads this
    {
      Iter(feed, invalid, skipsBlobs)
    }

    constructor (feed: seq<Tx>)
      ensures View() == Iter(feed, {}, false)
    {
      this.feed, invalid, skipsBlobs := feed, {}, false;
    }

    method Next() returns (tx: Option<Tx>)
      modifies this
      ensures (tx, View()) == old(View()).Next()
    {
      while feed != []
        invariant View().Next() == old(View()).Next()
        decreases |feed|
      {
        var best := feed[0];
        feed := feed[1..];
        if best.sender !in invalid {
          if skipsBlobs && best.IsBlob() {
            invalid := invalid + {best.sender};
          } else {
            return Some(best);
          }
        }
      }
      return None;
    }

    method MarkInvalid(tx: Tx)
      modifies this
      ensures View() == old(View()).MarkInvalid(tx)
    {
      invalid := invalid + {tx.sender};
    }

    method SkipBlobs()
      modifies this
      ensures View() == old(View()).SkipBlobs()
    {
      skipsBlobs := true;
    }
  }

  // --- What the pool promises about its feed ---

  function NextNonce(feed: seq<Tx>, sender: nat): Option<nat>
    decreases |feed|
  {
    if feed == [] then None
    else if feed[0].sender == sender then Some(feed[0].nonce)
    else NextNonce(feed[1..], sender)
  }

  // Each sender's transactions come with consecutive nonces.
  predicate Consecutive(feed: seq<Tx>)
    decreases |feed|
  {
    feed == [] ||
    (Consecutive(feed[1..]) &&
     var next := NextNonce(feed[1..], feed[0].sender);
     next == None || next == Some(feed[0].nonce + 1))
  }

  // Fees and limits have the widths the pool stores them in.
  predicate WellSized(tx: Tx) {
    tx.gasLimit <= U64_MAX && tx.maxFeePerGas <= U128_MAX
  }
}
