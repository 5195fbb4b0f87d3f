// The Load overrides of the EVM environment.
module EvmEnv {
  import opened Wrappers
  import opened ChainSpec
  import opened BlobFee
  import opened BlobFeeCeiling

  datatype BlobExcessGasAndPrice = BlobExcessGasAndPrice(excessBlobGas: nat, blobGasprice: nat)

  // The part of the environment the overrides touch, as a value; `rest` stands for all else.
  datatype EnvView = EnvView(
    maxBlobsPerTx: Option<nat>,
    updateFraction: Option<nat>,
    blob: Option<BlobExcessGasAndPrice>,
    rest: nat)

  class EvmEnv {
    var maxBlobsPerTx: Option<nat>
    var updateFraction: Option<nat>
    var blob: Option<BlobExcessGasAndPrice>
    var rest: nat

    ghost function View(): EnvView
      reads this
    {
      EnvView(maxBlobsPerTx, updateFraction, blob, rest)
    }

    constructor (upstream: EnvView)
      ensures View() == upstream
    {
      maxBlobsPerTx, updateFraction, blob, rest :=
        upstream.maxBlobsPerTx, upstream.updateFraction, upstream.blob, upstream.rest;
    }

    // The overrides. `fits` tells that the u128 price loop did not overflow; with a minimum blob
    // fee of 1, which every chain made from a genesis has (MinBlobFeeIsOne), it never does.
    method EnforceLoadBlobEnv(spec: LoadChainSpec, timestamp: nat) returns (fits: bool)
      modifies this
      ensures fits <==> PriceFits(spec, timestamp, old(View()))
      ensures fits ==> View() == Enforced(spec, timestamp, old(View()))
      ensures LoadBlobParamsAt(spec, timestamp).minBlobFee == 1 ==> fits
    {
      var params := LoadBlobParamsAt(spec, timestamp);
      maxBlobsPerTx := Some(params.maxBlobsPerTx);
      updateFraction := Some(LOAD_BLOB_UPDATE_FRACTION);
      fits := true;
      FakeExponentialAtLeastFactor(params.minBlobFee, 0, params.updateFraction);
      if blob.Some? {
        var maxBlobGas := params.MaxBlobGasPerBlock();
        var excess := blob.value.excessBlobGas;
        if excess > maxBlobGas {
          excess := maxBlobGas;
        }
        FeeWithinClamp(excess);
        var price;
        price, fits := ComputeFakeExponential(params.minBlobFee, excess, params.updateFraction);
        blob := Some(BlobExcessGasAndPrice(excess, price));
      } else if spec.CancunActive(timestamp) {
        FeeWithinClamp(0);
        var price;
        price, fits := ComputeFakeExponential(params.minBlobFee, 0, params.updateFraction);
        blob := Some(BlobExcessGasAndPrice(0, price));
      }
    }
  }

  function LoadBlobParamsAt(spec: LoadChainSpec, timestamp: nat): BlobParams {
    var params := match spec.BlobParamsAt(timestamp)
      case Some(p) => p
      case None => CANCUN_PARAMS;
    params.(targetBlobCount := LOAD_TARGET_BLOB_COUNT,
            maxBlobCount := LOAD_MAX_BLOB_COUNT,
            maxBlobsPerTx := LOAD_MAX_BLOBS_PER_TX,
            updateFraction := LOAD_BLOB_UPDATE_FRACTION)
  }

  function Min(a: nat, b: nat): nat { if a <= b then a else b }

  // What the environment becomes: the excess is cut at Load's maximum, and the price is recomputed.
  function Enforced(spec: LoadChainSpec, timestamp: nat, env: EnvView): EnvView {
    var params := LoadBlobParamsAt(spec, timestamp);
    var blob := match env.blob
      case Some(b) =>
        var excess := Min(b.excessBlobGas, MAX_LOAD_BLOB_GAS);
        Some(BlobExcessGasAndPrice(excess, FakeExponential(params.minBlobFee, excess, params.updateFraction)))
      case None =>
        if spec.CancunActive(timestamp)
        then Some(BlobExcessGasAndPrice(0, params.minBlobFee))
        else None;
    EnvView(Some(LOAD_MAX_BLOBS_PER_TX), Some(LOAD_BLOB_UPDATE_FRACTION), blob, env.rest)
  }

  // The price loop stays within u128. Without blob fields before Cancun no price is computed.
  predicate PriceFits(spec: LoadChainSpec, timestamp: nat, env: EnvView) {
    var params := LoadBlobParamsAt(spec, timestamp);
    (env.blob.None? && !spec.CancunActive(timestamp)) ||
    (var excess := if env.blob.Some? then Min(env.blob.value.excessBlobGas, MAX_LOAD_BLOB_GAS) else 0;
     && params.minBlobFee * params.updateFraction <= U128_MAX
     && FitsU128(0, params.minBlobFee * params.updateFraction, excess, params.updateFraction, 1))
  }

  // A price is computed only where there are or will be blob fields, and then the loop stays within
  // u128 exactly when its scaled start and each of its iterations do.
  lemma PriceFitsExactly(spec: LoadChainSpec, timestamp: nat, env: EnvView)
    ensures
      var start := LoadBlobParamsAt(spec, timestamp).minBlobFee * LOAD_BLOB_UPDATE_FRACTION;
      var excess := if env.blob.Some? then Min(env.blob.value.excessBlobGas, MAX_LOAD_BLOB_GAS) else 0;
      PriceFits(spec, timestamp, env) <==>
      (env.blob.Some? || spec.CancunActive(timestamp) ==>
         start <= U128_MAX && forall j :: FitsIn(start, excess, LOAD_BLOB_UPDATE_FRACTION, j))
  {
    var start := LoadBlobParamsAt(spec, timestamp).minBlobFee * LOAD_BLOB_UPDATE_FRACTION;
    LoopExactly(start, if env.blob.Some? then Min(env.blob.value.excessBlobGas, MAX_LOAD_BLOB_GAS) else 0,
                LOAD_BLOB_UPDATE_FRACTION);
  }

  // Every chain made from a genesis prices blobs from a minimum fee of 1 at every timestamp.
  lemma MinBlobFeeIsOne(osakaTime: Option<nat>, timestamp: nat)
    ensures LoadBlobParamsAt(SpecOf(osakaTime), timestamp).minBlobFee == 1
  {
    assert LatestScheduled([], timestamp) == None;
  }

  // On a chain made from a genesis the environment's parameters are the chain's own exactly until
  // Osaka; from then on the chain names the smaller Osaka parameters and the environment does not.
  lemma ParamsAgreeUntilOsaka(osakaTime: Option<nat>, timestamp: nat)
    ensures SpecOf(osakaTime).BlobParamsAt(timestamp) == Some(LoadBlobParamsAt(SpecOf(osakaTime), timestamp))
            <==> !SpecOf(osakaTime).OsakaActive(timestamp)
  {
    assert LatestScheduled([], timestamp) == None;
  }

  // Whatever the chain says of its forks, the environment has Load's own counts and update fraction
  // and takes from the chain only the minimum fee, which is the Cancun default where the chain says
  // nothing. On a chain made from a genesis that fee is 1.
  lemma ParamsAreLoads(spec: LoadChainSpec, timestamp: nat)
    ensures
      var params := LoadBlobParamsAt(spec, timestamp);
      && params.maxBlobCount == 1024 && params.targetBlobCount == 512 && params.maxBlobsPerTx == 32
      && params.updateFraction == 5_007_716
      && params.minBlobFee == (match spec.BlobParamsAt(timestamp)
                               case Some(own) => own.minBlobFee
                               case None => CANCUN_PARAMS.minBlobFee)
  {
  }

  // The price is that of the clamped excess, by the loop of EIP-4844 and with the chain's minimum fee.
  lemma PriceExactly(spec: LoadChainSpec, timestamp: nat, env: EnvView)
    requires env.blob.Some?
    ensures
      var fee, excess := LoadBlobParamsAt(spec, timestamp).minBlobFee, env.blob.value.excessBlobGas;
      && Enforced(spec, timestamp, env).blob.Some?
      && Enforced(spec, timestamp, env).blob.value.excessBlobGas ==
         (if excess <= 1024 * GAS_PER_BLOB then excess else 1024 * GAS_PER_BLOB)
      && Enforced(spec, timestamp, env).blob.value.blobGasprice ==
         FakeExponential(fee, if excess <= 1024 * GAS_PER_BLOB then excess else 1024 * GAS_PER_BLOB, 5_007_716)
  {
  }

  // What else the overrides set, and that they set nothing else: the limits on blobs, and from
  // Cancun on blob fields where there were none, at the minimum fee.
  lemma OverridesExactly(spec: LoadChainSpec, timestamp: nat, env: EnvView)
    ensures
      var after := Enforced(spec, timestamp, env);
      && after.maxBlobsPerTx == Some(32) && after.updateFraction == Some(5_007_716) && after.rest == env.rest
      && (after.blob.Some? <==> env.blob.Some? || spec.CancunActive(timestamp))
      && (env.blob.None? && after.blob.Some? ==>
            after.blob.value ==
            BlobExcessGasAndPrice(0, FakeExponential(LoadBlobParamsAt(spec, timestamp).minBlobFee, 0, 5_007_716)))
  {
    FakeExponentialAtLeastFactor(LoadBlobParamsAt(spec, timestamp).minBlobFee, 0, 5_007_716);
  }

  // Clamping the gas and recomputing the price is the same as capping the price.
  lemma PriceIsTheMinimum(spec: LoadChainSpec, timestamp: nat, env: EnvView)
    requires env.blob.Some?
    ensures
      var params := LoadBlobParamsAt(spec, timestamp);
      Enforced(spec, timestamp, env).blob.value.blobGasprice ==
      Min(FakeExponential(params.minBlobFee, env.blob.value.excessBlobGas, params.updateFraction),
          FakeExponential(params.minBlobFee, MAX_LOAD_BLOB_GAS, params.updateFraction))
  {
    var params := LoadBlobParamsAt(spec, timestamp);
    var excess := env.blob.value.excessBlobGas;
    if excess <= MAX_LOAD_BLOB_GAS {
      FakeExponentialMonotone(params.minBlobFee, excess, MAX_LOAD_BLOB_GAS, params.updateFraction);
    } else {
      FakeExponentialMonotone(params.minBlobFee, MAX_LOAD_BLOB_GAS, excess, params.updateFraction);
    }
  }

  // On a chain made from a genesis every upstream excess at or above the clamp has the one highest
  // price, and every smaller one exactly the price EIP-4844 gives it at a minimum fee of 1.
  lemma PriceOnGenesisChains(osakaTime: Option<nat>, timestamp: nat, env: EnvView)
    requires env.blob.Some?
    ensures
      var price := Enforced(SpecOf(osakaTime), timestamp, env).blob.value.blobGasprice;
      if env.blob.value.excessBlobGas >= MAX_LOAD_BLOB_GAS then price == MAX_LOAD_BLOB_FEE
      else price == FakeExponential(1, env.blob.value.excessBlobGas, LOAD_BLOB_UPDATE_FRACTION)
  {
    MinBlobFeeIsOne(osakaTime, timestamp);
    FeeAtClamp();
  }

  // One constant bounds the price of every block of every run, and no block is free.
  lemma PriceHasOneBound(osakaTime: Option<nat>, timestamp: nat, env: EnvView)
    ensures
      var blob := Enforced(SpecOf(osakaTime), timestamp, env).blob;
      && blob.Some?
      && blob.value.excessBlobGas <= MAX_LOAD_BLOB_GAS
      && 1 <= blob.value.blobGasprice <= MAX_LOAD_BLOB_FEE
  {
    MinBlobFeeIsOne(osakaTime, timestamp);
    FeeWithinClamp(match env.blob
      case Some(b) => Min(b.excessBlobGas, MAX_LOAD_BLOB_GAS)
      case None => 0);
  }

  // The builder hands the price to the pool as a u64, and no price is cut by that.
  lemma PriceFitsU64(osakaTime: Option<nat>, timestamp: nat, env: EnvView)
    ensures
      var blob := Enforced(SpecOf(osakaTime), timestamp, env).blob;
      blob.Some? && blob.value.blobGasprice <= U64_MAX
  {
    PriceHasOneBound(osakaTime, timestamp, env);
  }

  // A larger upstream excess never makes blobs cheaper.
  lemma PriceMonotone(spec: LoadChainSpec, timestamp: nat, a: EnvView, b: EnvView)
    requires a.blob.Some? && b.blob.Some? && a.blob.value.excessBlobGas <= b.blob.value.excessBlobGas
    ensures Enforced(spec, timestamp, a).blob.value.blobGasprice <= Enforced(spec, timestamp, b).blob.value.blobGasprice
  {
    var params := LoadBlobParamsAt(spec, timestamp);
    FakeExponentialMonotone(params.minBlobFee, Min(a.blob.value.excessBlobGas, MAX_LOAD_BLOB_GAS),
                            Min(b.blob.value.excessBlobGas, MAX_LOAD_BLOB_GAS), params.updateFraction);
  }

  // Enforcing twice is enforcing once, even across the two branches: an environment without blob
  // fields that gained them is left alone the second time.
  lemma EnforcedIsIdempotent(spec: LoadChainSpec, timestamp: nat, env: EnvView)
    ensures Enforced(spec, timestamp, Enforced(spec, timestamp, env)) == Enforced(spec, timestamp, env)
  {
    FakeExponentialAtLeastFactor(LoadBlobParamsAt(spec, timestamp).minBlobFee, 0, LOAD_BLOB_UPDATE_FRACTION);
  }

  // --- The entry points ---

  // What each entry point is asked about, as far as the overrides look at it.
  datatype Header = Header(timestamp: nat, rest: nat)

  datatype NextBlockAttributes = NextBlockAttributes(timestamp: nat, rest: nat)

  // The upstream configuration answers with an environment or an error.
  datatype Upstream = Upstream(
    evmEnv: Header -> Result<EnvView, nat>,
    nextEvmEnv: (Header, NextBlockAttributes) -> Result<EnvView, nat>,
    evmEnvForPayload: Header -> Result<EnvView, nat>)

  // The three entry points answer with the upstream error, or with the upstream environment and the
  // overrides at a timestamp of their own. Nothing is said of an environment whose price loop leaves
  // u128 (PriceFits says when one does).
  method EnvForHeader(spec: LoadChainSpec, upstream: Upstream, header: Header) returns (result: Result<EvmEnv, nat>)
    ensures result.Ok? <==> upstream.evmEnv(header).Ok?
    ensures result.Err? ==> result.error == upstream.evmEnv(header).error
    ensures result.Ok? ==> fresh(result.value)
    ensures result.Ok? && PriceFits(spec, header.timestamp, upstream.evmEnv(header).value) ==>
              result.value.View() == Enforced(spec, header.timestamp, upstream.evmEnv(header).value)
  {
    var env := upstream.evmEnv(header);
    if env.Err? {
      return Err(env.error);
    }
    var enforced := new EvmEnv(env.value);
    var _ := enforced.EnforceLoadBlobEnv(spec, header.timestamp);
    return Ok(enforced);
  }

  // The environment of a block to be built is priced at the new block's timestamp, not the parent's.
  method NextEnv(spec: LoadChainSpec, upstream: Upstream, parent: Header, attributes: NextBlockAttributes)
    returns (result: Result<EvmEnv, nat>)
    ensures result.Ok? <==> upstream.nextEvmEnv(parent, attributes).Ok?
    ensures result.Err? ==> result.error == upstream.nextEvmEnv(parent, attributes).error
    ensures result.Ok? ==> fresh(result.value)
    ensures result.Ok? && PriceFits(spec, attributes.timestamp, upstream.nextEvmEnv(parent, attributes).value) ==>
              result.value.View() == Enforced(spec, attributes.timestamp, upstream.nextEvmEnv(parent, attributes).value)
  {
    var env := upstream.nextEvmEnv(parent, attributes);
    if env.Err? {
      return Err(env.error);
    }
    var enforced := new EvmEnv(env.value);
    var _ := enforced.EnforceLoadBlobEnv(spec, attributes.timestamp);
    return Ok(enforced);
  }

  method EnvForPayload(spec: LoadChainSpec, upstream: Upstream, payload: Header)
    returns (result: Result<EvmEnv, nat>)
    ensures result.Ok? <==> upstream.evmEnvForPayload(payload).Ok?
    ensures result.Err? ==> result.error == upstream.evmEnvForPayload(payload).error
    ensures result.Ok? ==> fresh(result.value)
    ensures result.Ok? && PriceFits(spec, payload.timestamp, upstream.evmEnvForPayload(payload).value) ==>
              result.value.View() == Enforced(spec, payload.timestamp, upstream.evmEnvForPayload(payload).value)
  {
    var env := upstream.evmEnvForPayload(payload);
    if env.Err? {
      return Err(env.error);
    }
    var enforced := new EvmEnv(env.value);
    var _ := enforced.EnforceLoadBlobEnv(spec, payload.timestamp);
    return Ok(enforced);
  }

  // On a chain made from a genesis the price loop always stays within u128, so there the three entry
  // points always answer with the overrides.
  lemma PriceAlwaysFits(osakaTime: Option<nat>, timestamp: nat, env: EnvView)
    ensures PriceFits(SpecOf(osakaTime), timestamp, env)
  {
    MinBlobFeeIsOne(osakaTime, timestamp);
    FeeWithinClamp(if env.blob.Some? then Min(env.blob.value.excessBlobGas, MAX_LOAD_BLOB_GAS) else 0);
  }

  // The builder never admits more blobs than the environment it executes in is configured for.
  lemma CapWithinEnv(spec: LoadChainSpec, timestamp: nat)
    ensures ComputeLoadBlobCap(spec, timestamp) <= LoadBlobParamsAt(spec, timestamp).maxBlobCount
    ensures ComputeLoadBlobCap(spec, timestamp) * GAS_PER_BLOB <= LoadBlobParamsAt(spec, timestamp).MaxBlobGasPerBlock()
  {
    ProductMonotone(ComputeLoadBlobCap(spec, timestamp), LOAD_MAX_BLOB_COUNT, GAS_PER_BLOB, GAS_PER_BLOB);
  }
}
