// The guards of the engine validator and of the RPC layer in front of it.
module Validator {
  import opened Wrappers
  import opened ChainSpec
  import opened Payload

  datatype ValidationError =
    | WrongPrevRandao
    | TooManyHashes(got: nat)
    | PragueFieldsNotActive(timestamp: nat)
    | UpstreamRejected
    | Attributes(error: AttributesError)

  // --- Validator ---

  function EnsureLoadPayloadInvariants(spec: LoadChainSpec, data: ExecutionData): Result<Unit, ValidationError> {
    var hashes := data.sidecar.versionedHashes;
    if data.block.prevRandao != LOAD_PREVRANDAO then Err(WrongPrevRandao)
    else if hashes.Some? && |hashes.value| > LOAD_MAX_BLOB_COUNT then Err(TooManyHashes(|hashes.value|))
    else if !spec.PragueActive(data.block.timestamp) && data.sidecar.RequestList().Some?
    then Err(PragueFieldsNotActive(data.block.timestamp))
    else Ok(Unit)
  }

  // Upstream checks behind the guards may reject for any further reason.
  function ConvertPayloadToBlock(spec: LoadChainSpec, data: ExecutionData, upstreamOk: bool)
    : Result<Block, ValidationError>
  {
    match EnsureLoadPayloadInvariants(spec, data)
    case Err(e) => Err(e)
    case Ok(_) => if upstreamOk then Ok(data.block) else Err(UpstreamRejected)
  }

  function ValidatePayloadFields(spec: LoadChainSpec, data: ExecutionData, upstreamOk: bool)
    : Result<Unit, ValidationError>
  {
    match EnsureLoadPayloadInvariants(spec, data)
    case Err(e) => Err(e)
    case Ok(_) => if upstreamOk then Ok(Unit) else Err(UpstreamRejected)
  }

  function EnsureWellFormedAttributes(attrs: PayloadAttributes, upstreamOk: bool): Result<Unit, ValidationError> {
    if attrs.prevRandao != LOAD_PREVRANDAO then Err(WrongPrevRandao)
    else if upstreamOk then Ok(Unit)
    else Err(UpstreamRejected)
  }

  // --- RPC ---

  function ValidateBlobRequest(hashes: seq<nat>): Result<Unit, ValidationError> {
    if |hashes| > LOAD_MAX_BLOB_COUNT then Err(TooManyHashes(|hashes|)) else Ok(Unit)
  }

  function EnsureLoadPrevRandao(prevRandao: B256): Result<Unit, ValidationError> {
    if prevRandao == LOAD_PREVRANDAO then Ok(Unit) else Err(WrongPrevRandao)
  }

  // The engine methods that carry a payload, with what their callers send.
  datatype NewPayload =
    | V1(block: Block)
    | V2(block: Block)
    | V3(block: Block, hashes: seq<nat>, root: B256)
    | V4(block: Block, hashes: seq<nat>, root: B256, requests: RequestsOrHash)

  function DataOf(call: NewPayload): ExecutionData {
    match call
    case V1(block) => DataV1(block)
    case V2(block) => DataV1(block)
    case V3(block, hashes, root) => DataV3(block, hashes, root)
    case V4(block, hashes, root, requests) => DataV4(block, hashes, root, requests)
  }

  // The guards of the RPC handlers: versions 1 and 2 have none.
  function RpcGuard(call: NewPayload): Result<Unit, ValidationError> {
    if call.V1? || call.V2? then Ok(Unit)
    else match ValidateBlobRequest(call.hashes)
      case Err(e) => Err(e)
      case Ok(_) => EnsureLoadPrevRandao(call.block.prevRandao)
  }

  // A refusal of the RPC guards is one the validator would make as well. For versions 3 and 4 it
  // is the validator's only ground but one: a list of Prague requests before Prague.
  lemma RpcGuardAgreesWithValidator(spec: LoadChainSpec, call: NewPayload)
    ensures RpcGuard(call).Err? ==> EnsureLoadPayloadInvariants(spec, DataOf(call)).Err?
    ensures call.V3? ==> (RpcGuard(call).Ok? <==> EnsureLoadPayloadInvariants(spec, DataOf(call)).Ok?)
    ensures call.V4? ==>
              (EnsureLoadPayloadInvariants(spec, DataOf(call)).Ok? <==>
               RpcGuard(call).Ok? && (call.requests.Requests? ==> spec.PragueActive(call.block.timestamp)))
    ensures call.V1? || call.V2? ==>
              (EnsureLoadPayloadInvariants(spec, DataOf(call)).Ok? <==> call.block.prevRandao == LOAD_PREVRANDAO)
  {
  }

  // A refusal names something that is wrong with what was sent: the prev_randao, the number of hashes,
  // or requests before Prague. With one thing wrong the RPC guards and the validator name the same.
  ghost predicate Names(spec: LoadChainSpec, data: ExecutionData, e: ValidationError) {
    match e
    case WrongPrevRandao => data.block.prevRandao != LOAD_PREVRANDAO
    case TooManyHashes(got) =>
      data.sidecar.versionedHashes.Some? && |data.sidecar.versionedHashes.value| == got > LOAD_MAX_BLOB_COUNT
    case PragueFieldsNotActive(timestamp) =>
      && timestamp == data.block.timestamp && !spec.PragueActive(timestamp)
      && data.sidecar.RequestList().Some?
    case UpstreamRejected => false
    case Attributes(_) => false
  }

  lemma RefusalNamesTheFault(spec: LoadChainSpec, call: NewPayload)
    ensures
      var verdict := EnsureLoadPayloadInvariants(spec, DataOf(call));
      if verdict.Err? then Names(spec, DataOf(call), verdict.error)
      else forall e :: !Names(spec, DataOf(call), e)
    ensures RpcGuard(call).Err? ==> Names(spec, DataOf(call), RpcGuard(call).error)
  {
  }

  // What a call carries is what the validator looks at, hashes and requests included.
  lemma DataIsWhatWasSent(call: NewPayload)
    ensures DataOf(call).block == call.block
    ensures
      var sidecar := DataOf(call).sidecar;
      if call.V1? || call.V2? then
        sidecar.versionedHashes == None && sidecar.parentBeaconRoot == None && sidecar.prague == None
      else
        && sidecar.versionedHashes == Some(call.hashes) && sidecar.parentBeaconRoot == Some(call.root)
        && sidecar.prague == if call.V4? then Some(call.requests) else None
  {
  }

  // The fork gate looks at the list of requests only. Prague fields get past it before Prague
  // exactly when they carry a hash in place of the list.
  lemma ForkGateSeesOnlyLists(spec: LoadChainSpec, data: ExecutionData)
    requires data.block.prevRandao == LOAD_PREVRANDAO && !spec.PragueActive(data.block.timestamp)
    requires data.sidecar.versionedHashes.Some? ==> |data.sidecar.versionedHashes.value| <= LOAD_MAX_BLOB_COUNT
    requires data.sidecar.prague.Some?
    ensures EnsureLoadPayloadInvariants(spec, data).Ok? <==> data.sidecar.prague.value.RequestsHash?
  {
  }

  // On a chain made from a genesis Prague is active from the start, so there the fork gate never
  // refuses anything.
  lemma ForkGateIsIdleOnGenesisChains(osakaTime: Option<nat>, data: ExecutionData)
    ensures var result := EnsureLoadPayloadInvariants(SpecOf(osakaTime), data);
            result.Err? ==> !result.error.PragueFieldsNotActive?
    ensures EnsureLoadPayloadInvariants(SpecOf(osakaTime), data).Ok? <==>
            data.block.prevRandao == LOAD_PREVRANDAO &&
            (data.sidecar.versionedHashes.Some? ==> |data.sidecar.versionedHashes.value| <= LOAD_MAX_BLOB_COUNT)
  {
  }

  // An instance on a chain put together by hand: no genesis yields one with a later Prague.
  lemma HashPassesTheForkGate()
    ensures
      var spec := SpecOf(None).(pragueTime := Some(1000));
      var data := DataV4(Block(0, 1, LOAD_PREVRANDAO, []), [], 0, RequestsHash(0));
      && !spec.PragueActive(data.block.timestamp) && data.sidecar.prague.Some?
      && EnsureLoadPayloadInvariants(spec, data).Ok?
      && forall osakaTime :: spec != SpecOf(osakaTime)
  {
  }
}
